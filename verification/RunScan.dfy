/** Maximal runs of marked positions.

    Two loops of the service are the same scan: the masked spans of a value and the
    tokens of an address. Both remember where the open run started and close it at the
    first unmarked position. */
module RunScan {
  import opened Wrappers

  /** A half open range of positions. */
  datatype Span = Span(start: nat, end: nat) {
    predicate Has(k: int) {
      start <= k < end
    }
  }

  /** The loop state after a prefix: the closed runs and the start of the open one. */
  datatype State = State(closed: seq<Span>, open: Option<nat>)

  function Scan(marks: seq<bool>, n: nat): (st: State)
    requires n <= |marks|
  {
    if n == 0 then State([], None)
    else
      var st := Scan(marks, n - 1);
      if marks[n - 1] then State(st.closed, if st.open.Some? then st.open else Some(n - 1))
      else if st.open.Some? then State(st.closed + [Span(st.open.value, n - 1)], None)
      else State(st.closed, None)
  }

  /** The maximal runs of marks, from left to right. */
  function Runs(marks: seq<bool>): seq<Span> {
    var st := Scan(marks, |marks|);
    if st.open.Some? then st.closed + [Span(st.open.value, |marks|)] else st.closed
  }

  ghost predicate InSome(spans: seq<Span>, k: int) {
    exists j :: 0 <= j < |spans| && spans[j].Has(k)
  }

  /** In range, non-empty, in order and with a gap between any two. */
  ghost predicate Separated(spans: seq<Span>, n: nat) {
    && (forall j | 0 <= j < |spans| :: spans[j].start < spans[j].end <= n)
    && (forall i, j | 0 <= i < j < |spans| :: spans[i].end < spans[j].start)
  }

  ghost predicate Covers(spans: seq<Span>, marks: seq<bool>) {
    forall k | 0 <= k < |marks| :: marks[k] <==> InSome(spans, k)
  }

  function Width(spans: seq<Span>): nat
    requires forall j | 0 <= j < |spans| :: spans[j].start <= spans[j].end
  {
    if spans == [] then 0 else Width(spans[..|spans| - 1]) + (spans[|spans| - 1].end - spans[|spans| - 1].start)
  }

  function Marked(marks: seq<bool>, n: nat): nat
    requires n <= |marks|
  {
    if n == 0 then 0 else Marked(marks, n - 1) + if marks[n - 1] then 1 else 0
  }

  function Top(n: nat, st: State): nat {
    if st.open.Some? then st.open.value else n
  }

  /** The closed runs are separated, end before the open one, and hold the marks below it. */
  ghost predicate ScanInv(marks: seq<bool>, n: nat, st: State)
    requires n <= |marks|
  {
    && (if st.open.Some? then st.open.value < n else n > 0 ==> !marks[n - 1])
    && Separated(st.closed, n)
    && (forall j | 0 <= j < |st.closed| :: st.closed[j].end < n)
    && (forall j | 0 <= j < |st.closed| :: st.open.Some? ==> st.closed[j].end < st.open.value)
    && (forall k | Top(n, st) <= k < n :: marks[k])
    && (forall k | 0 <= k < Top(n, st) :: marks[k] <==> InSome(st.closed, k))
    && Marked(marks, n) == Width(st.closed) + (n - Top(n, st))
  }

  lemma {:induction false} ScanKeepsInv(marks: seq<bool>, n: nat)
    requires n <= |marks|
    ensures ScanInv(marks, n, Scan(marks, n))
  {
    if n > 0 {
      ScanKeepsInv(marks, n - 1);
      var st := Scan(marks, n - 1);
      if marks[n - 1] {
        ScanOpens(marks, n, st);
      } else if st.open.Some? {
        ScanCloses(marks, n, st);
      } else {
        ScanSkips(marks, n, st);
      }
    }
  }

  lemma ScanOpens(marks: seq<bool>, n: nat, st: State)
    requires 0 < n <= |marks| && ScanInv(marks, n - 1, st) && marks[n - 1]
    ensures ScanInv(marks, n, State(st.closed, if st.open.Some? then st.open else Some(n - 1)))
  {
  }

  lemma ScanSkips(marks: seq<bool>, n: nat, st: State)
    requires 0 < n <= |marks| && ScanInv(marks, n - 1, st) && !marks[n - 1] && st.open.None?
    ensures ScanInv(marks, n, st)
  {
    assert !InSome(st.closed, n - 1);
  }

  lemma ScanCloses(marks: seq<bool>, n: nat, st: State)
    requires 0 < n <= |marks| && ScanInv(marks, n - 1, st) && !marks[n - 1] && st.open.Some?
    ensures ScanInv(marks, n, State(st.closed + [Span(st.open.value, n - 1)], None))
  {
    var last := Span(st.open.value, n - 1);
    var closed := st.closed + [last];
    assert closed[..|closed| - 1] == st.closed;
    forall k | 0 <= k < n
      ensures marks[k] <==> InSome(closed, k)
    {
      CloseRun(st.closed, last, k);
      if k >= last.start {
        assert !InSome(st.closed, k);
      }
    }
  }

  lemma CloseRun(closed: seq<Span>, last: Span, k: int)
    ensures InSome(closed + [last], k) <==> InSome(closed, k) || last.Has(k)
  {
    var all := closed + [last];
    if InSome(closed, k) {
      var j :| 0 <= j < |closed| && closed[j].Has(k);
      assert all[j].Has(k);
    }
    if last.Has(k) {
      assert all[|closed|].Has(k);
    }
  }

  /** The scan yields separated runs that hold exactly the marked positions; their widths add up. */
  lemma RunsAreExact(marks: seq<bool>)
    ensures Separated(Runs(marks), |marks|)
    ensures Covers(Runs(marks), marks)
    ensures Width(Runs(marks)) == Marked(marks, |marks|)
  {
    ScanKeepsInv(marks, |marks|);
    hide Scan;
    var st := Scan(marks, |marks|);
    if st.open.Some? {
      FinalRunIsExact(marks, st);
    }
  }

  lemma FinalRunIsExact(marks: seq<bool>, st: State)
    requires ScanInv(marks, |marks|, st) && st.open.Some?
    ensures var all := st.closed + [Span(st.open.value, |marks|)];
            Separated(all, |marks|) && Covers(all, marks) && Width(all) == Marked(marks, |marks|)
  {
    var last := Span(st.open.value, |marks|);
    var all := st.closed + [last];
    assert all[..|all| - 1] == st.closed;
    forall k | 0 <= k < |marks|
      ensures marks[k] <==> InSome(all, k)
    {
      CloseRun(st.closed, last, k);
    }
  }

  /** Separated spans are determined by the positions they hold, so the scan result is the only one. */
  lemma {:induction false} SeparatedSpansAreUnique(a: seq<Span>, b: seq<Span>, n: nat)
    requires Separated(a, n) && Separated(b, n)
    requires forall k | 0 <= k < n :: InSome(a, k) <==> InSome(b, k)
    ensures a == b
  {
    if a == [] && b == [] {
    } else if a == [] {
      FirstIsHeld(b, n);
    } else if b == [] {
      FirstIsHeld(a, n);
    } else {
      FirstStart(a, b, n);
      FirstStart(b, a, n);
      FirstEnd(a, b, n);
      FirstEnd(b, a, n);
      RestsAgree(a, b, n);
      SeparatedSpansAreUnique(a[1..], b[1..], n);
      assert a == [a[0]] + a[1..] && b == [b[0]] + b[1..];
    }
  }

  lemma FirstIsHeld(a: seq<Span>, n: nat)
    requires Separated(a, n) && a != []
    ensures 0 <= a[0].start < n && InSome(a, a[0].start)
  {
    assert a[0].Has(a[0].start);
  }

  lemma RestsAgree(a: seq<Span>, b: seq<Span>, n: nat)
    requires Separated(a, n) && Separated(b, n) && a != [] && b != [] && a[0] == b[0]
    requires forall k | 0 <= k < n :: InSome(a, k) <==> InSome(b, k)
    ensures Separated(a[1..], n) && Separated(b[1..], n)
    ensures forall k | 0 <= k < n :: InSome(a[1..], k) <==> InSome(b[1..], k)
  {
    forall k | 0 <= k < n
      ensures InSome(a[1..], k) <==> InSome(b[1..], k)
    {
      WithoutFirst(a, n, k);
      WithoutFirst(b, n, k);
    }
  }

  lemma FirstStart(a: seq<Span>, b: seq<Span>, n: nat)
    requires Separated(a, n) && Separated(b, n) && a != [] && b != []
    requires forall k | 0 <= k < n :: InSome(a, k) <==> InSome(b, k)
    ensures a[0].start >= b[0].start
  {
    assert a[0].Has(a[0].start);
    assert InSome(a, a[0].start);
    var j :| 0 <= j < |b| && b[j].Has(a[0].start);
  }

  lemma FirstEnd(a: seq<Span>, b: seq<Span>, n: nat)
    requires Separated(a, n) && Separated(b, n) && a != [] && b != []
    requires forall k | 0 <= k < n :: InSome(a, k) <==> InSome(b, k)
    requires a[0].start == b[0].start
    ensures a[0].end <= b[0].end
  {
    var e := b[0].end;
    assert !InSome(b, e);
    if e < a[0].end {
      assert a[0].Has(e);
      assert InSome(a, e);
    }
  }

  lemma WithoutFirst(a: seq<Span>, n: nat, k: int)
    requires Separated(a, n) && a != []
    ensures InSome(a[1..], k) <==> InSome(a, k) && !a[0].Has(k)
  {
    if InSome(a[1..], k) {
      var j :| 0 <= j < |a[1..]| && a[1..][j].Has(k);
      assert a[j + 1].Has(k);
    }
    if InSome(a, k) && !a[0].Has(k) {
      var j :| 0 <= j < |a| && a[j].Has(k);
      assert a[1..][j - 1].Has(k);
    }
  }

  /** Held from lo to hi and not beyond. */
  ghost predicate IsRun(spans: seq<Span>, n: nat, lo: nat, hi: nat) {
    && lo < hi <= n && (forall k | lo <= k < hi :: InSome(spans, k))
    && (lo > 0 ==> !InSome(spans, lo - 1)) && (hi < n ==> !InSome(spans, hi))
  }

  lemma TheEndIsFree(spans: seq<Span>, n: nat, j: nat)
    requires Separated(spans, n) && j < |spans|
    ensures !InSome(spans, spans[j].end)
  {
    forall i | 0 <= i < |spans|
      ensures !spans[i].Has(spans[j].end)
    {
      if i < j {
        assert spans[i].end < spans[j].start;
      } else if j < i {
        assert spans[j].end < spans[i].start;
      }
    }
  }

  /** Separated spans are exactly the runs of the positions they hold. */
  lemma SpansAreTheRuns(spans: seq<Span>, n: nat, lo: nat, hi: nat)
    requires Separated(spans, n)
    ensures Span(lo, hi) in spans <==> IsRun(spans, n, lo, hi)
  {
    if Span(lo, hi) in spans {
      var j :| 0 <= j < |spans| && spans[j] == Span(lo, hi);
      assert forall k | lo <= k < hi :: spans[j].Has(k);
    }
    if IsRun(spans, n, lo, hi) {
      assert InSome(spans, lo);
      var j :| 0 <= j < |spans| && spans[j].Has(lo);
      TheEndIsFree(spans, n, j);
      if spans[j].start < lo {
        assert spans[j].Has(lo - 1);
      }
      if hi < spans[j].end {
        assert spans[j].Has(hi);
      }
      assert spans[j] == Span(lo, hi);
    }
  }
}
