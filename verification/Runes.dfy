/** Runes, the whitespace classes the service distinguishes, and rank counting.

    A value is a sequence of runes (Unicode scalar values), as after decoding valid UTF-8. */
module Runes {

  /** White space in the sense of Unicode, which trimming and address splitting use. */
  predicate IsSpace(c: char) {
    || '\t' <= c <= '\r'
    || c == ' ' || c == '\U{85}' || c == '\U{A0}' || c == '\U{1680}'
    || '\U{2000}' <= c <= '\U{200A}'
    || c == '\U{2028}' || c == '\U{2029}' || c == '\U{202F}' || c == '\U{205F}' || c == '\U{3000}'
  }

  /** The four blanks that the position based rules skip. */
  predicate IsBlank(c: char) {
    c == ' ' || c == '\t' || c == '\n' || c == '\r'
  }

  predicate IsVisible(c: char) {
    !IsBlank(c)
  }

  predicate IsDigit(c: char) {
    '0' <= c <= '9'
  }

  const ASCII_SPACES: set<int> := {0x09, 0x0A, 0x0B, 0x0C, 0x0D, 0x20}

  const WIDE_SPACES: set<int> :=
    {0x85, 0xA0, 0x1680, 0x2000, 0x2001, 0x2002, 0x2003, 0x2004, 0x2005, 0x2006, 0x2007, 0x2008, 0x2009, 0x200A,
     0x2028, 0x2029, 0x202F, 0x205F, 0x3000}

  /** The classes by their members. */
  lemma ClassesAreExact(c: char)
    ensures IsDigit(c) <==> c in "0123456789"
    ensures IsVisible(c) <==> c !in " \t\n\r"
    ensures IsSpace(c) <==> c as int in ASCII_SPACES + WIDE_SPACES
  {
  }

  /** How many runes of s[..i] are in the class p: the rank of position i within the class. */
  function Rank(p: char -> bool, s: string, i: nat): (n: nat)
    requires i <= |s|
    ensures n <= i
  {
    if i == 0 then 0 else Rank(p, s, i - 1) + if p(s[i - 1]) then 1 else 0
  }

  function Count(p: char -> bool, s: string): nat {
    Rank(p, s, |s|)
  }

  lemma {:induction false} RankMonotone(p: char -> bool, s: string, i: nat, j: nat)
    requires i <= j <= |s|
    ensures Rank(p, s, i) <= Rank(p, s, j) <= Rank(p, s, i) + (j - i)
    ensures forall k | i <= k < j && p(s[k]) :: Rank(p, s, i) < Rank(p, s, j)
  {
    if i < j {
      RankMonotone(p, s, i, j - 1);
    }
  }

  /** Ranks of a slice are ranks of the whole, counted from the start of the slice. */
  lemma {:induction false} RankSlice(p: char -> bool, s: string, lo: nat, hi: nat, i: nat)
    requires lo + i <= hi <= |s|
    ensures Rank(p, s[lo..hi], i) == Rank(p, s, lo + i) - Rank(p, s, lo)
  {
    if i > 0 {
      RankSlice(p, s, lo, hi, i - 1);
      assert s[lo..hi][i - 1] == s[lo + i - 1];
    }
  }

  lemma {:induction false} RankOfRun(p: char -> bool, s: string, lo: nat, hi: nat, all: bool)
    requires lo <= hi <= |s|
    requires forall k | lo <= k < hi :: p(s[k]) == all
    ensures Rank(p, s, hi) == Rank(p, s, lo) + if all then hi - lo else 0
  {
    if lo < hi {
      RankOfRun(p, s, lo, hi - 1, all);
    }
  }

  /** Counts come in the same way when the sequences agree on the class. */
  lemma {:induction false} RankPointwise(p: char -> bool, s: string, t: string, i: nat)
    requires i <= |s| && i <= |t|
    requires forall k | 0 <= k < i :: p(s[k]) == p(t[k])
    ensures Rank(p, s, i) == Rank(p, t, i)
  {
    if i > 0 {
      RankPointwise(p, s, t, i - 1);
    }
  }

  function Stars(n: nat): string {
    seq(n, _ => '*')
  }

  function Leading(s: string): (n: nat)
    ensures n <= |s|
    ensures forall i | 0 <= i < n :: IsSpace(s[i])
    ensures n < |s| ==> !IsSpace(s[n])
  {
    if s == [] || !IsSpace(s[0]) then 0 else 1 + Leading(s[1..])
  }

  function Trailing(s: string): (n: nat)
    ensures n <= |s|
    ensures forall i | |s| - n <= i < |s| :: IsSpace(s[i])
    ensures n < |s| ==> !IsSpace(s[|s| - n - 1])
  {
    if s == [] || !IsSpace(s[|s| - 1]) then 0 else 1 + Trailing(s[..|s| - 1])
  }

  function TrimLeft(s: string): string {
    s[Leading(s)..]
  }

  function TrimRight(s: string): string {
    s[..|s| - Trailing(s)]
  }

  function TrimSpace(s: string): string {
    TrimRight(TrimLeft(s))
  }

  /** The runes of s[lo..hi] are all space. */
  predicate Spaces(s: string, lo: nat, hi: nat)
    requires hi <= |s|
  {
    forall i | lo <= i < hi :: IsSpace(s[i])
  }

  /** Where the trimmed text sits inside s. */
  lemma TrimWindow(s: string)
    ensures Leading(s) + |TrimSpace(s)| <= |s|
    ensures TrimSpace(s) == s[Leading(s)..Leading(s) + |TrimSpace(s)|]
    ensures Spaces(s, 0, Leading(s)) && Spaces(s, Leading(s) + |TrimSpace(s)|, |s|)
    ensures TrimSpace(s) != [] ==> !IsSpace(TrimSpace(s)[0]) && !IsSpace(TrimSpace(s)[|TrimSpace(s)| - 1])
  {
    var lead, rest := Leading(s), TrimLeft(s);
    var keep := |rest| - Trailing(rest);
    assert rest[..keep] == s[lead..lead + keep];
    forall i | lead + keep <= i < |s|
      ensures IsSpace(s[i])
    {
      assert rest[i - lead] == s[i];
    }
  }

  lemma NothingToTrim(s: string)
    requires s != "" && !IsSpace(s[0]) && !IsSpace(s[|s| - 1])
    ensures TrimSpace(s) == s
  {
    assert Leading(s) == 0 && Trailing(s) == 0;
    assert s[0..] == s && s[..|s|] == s;
  }

  lemma BlankIffAllSpace(s: string)
    ensures TrimSpace(s) == [] <==> Spaces(s, 0, |s|)
  {
    TrimWindow(s);
    if TrimSpace(s) != [] {
      assert s[Leading(s)] == TrimSpace(s)[0];
    }
  }

  /** A rune class without spaces has the same ranks in the trimmed text. */
  lemma TrimKeepsRank(p: char -> bool, s: string, j: nat)
    requires forall i | 0 <= i < |s| && IsSpace(s[i]) :: !p(s[i])
    requires j <= |TrimSpace(s)|
    ensures Leading(s) + j <= |s|
    ensures Rank(p, s, Leading(s) + j) == Rank(p, TrimSpace(s), j)
    ensures Count(p, s) == Count(p, TrimSpace(s))
  {
    TrimWindow(s);
    hide IsSpace, TrimSpace;
    var lead, n := Leading(s), |TrimSpace(s)|;
    RankOfRun(p, s, 0, lead, false);
    RankSlice(p, s, lead, lead + n, j);
    RankSlice(p, s, lead, lead + n, n);
    RankOfRun(p, s, lead + n, |s|, false);
  }
}
