/** How a value is masked: the twelve rules, the generic full mask, and the fallback.

    Which rule a key selects is a parameter of the collectors; everything here holds for
    every choice of rule. */
module MaskPolicy {
  import opened Runes
  import opened Wrappers
  import opened RunScan

  datatype Rule =
    | ResidentRegistration | DriverLicense | Passport | AlienRegistration | MobilePhone | Telephone
    | CreditCard | BankAccount | PersonName | EmailAddress | IpAddress | Address | Generic

  /** The rule reported with a masked value; a blank value is reported as empty. */
  datatype Applied = Empty | By(rule: Rule)

  /** The twelve named rules, as opposed to the generic fallback. */
  predicate Supported(applied: Applied) {
    applied.By? && applied.rule != Generic
  }

  /** Same length, and every rune is the original one or a star. */
  ghost predicate StarredFrom(original: string, masked: string) {
    |masked| == |original| && forall i | 0 <= i < |original| :: masked[i] == original[i] || masked[i] == '*'
  }

  /** As above, and the blanks survive. */
  ghost predicate Gentle(original: string, masked: string) {
    && StarredFrom(original, masked)
    && forall i | 0 <= i < |original| && IsBlank(original[i]) :: masked[i] == original[i]
  }

  // ----- digit windows -----

  /** Hides the digits whose rank among the digits lies in lo..hi. */
  function HideDigits(v: string, lo: int, hi: int): string {
    seq(|v|, i requires 0 <= i < |v| => if IsDigit(v[i]) && lo <= Rank(IsDigit, v, i) < hi then '*' else v[i])
  }

  function KeepTrailingDigits(v: string, keep: nat): string {
    var total := Count(IsDigit, v);
    if total <= keep then HideDigits(v, 0, total) else HideDigits(v, 0, total - keep)
  }

  function HideLastDigits(v: string, last: nat): string {
    var total := Count(IsDigit, v);
    if total <= last then HideDigits(v, 0, total) else HideDigits(v, total - last, total)
  }

  function HideDigitsRange(v: string, keepLeading: nat, keepTrailing: nat): string {
    var total := Count(IsDigit, v);
    if total == 0 then v
    else if keepLeading + keepTrailing >= total then HideDigits(v, 0, total)
    else HideDigits(v, keepLeading, total - keepTrailing)
  }

  method CountDigits(value: string) returns (count: nat)
    ensures count == Count(IsDigit, value)
  {
    count := 0;
    for i := 0 to |value|
      invariant count == Rank(IsDigit, value, i)
    {
      if IsDigit(value[i]) {
        count := count + 1;
      }
    }
  }

  method MaskAllDigits(value: string) returns (masked: string)
    ensures masked == HideDigits(value, 0, Count(IsDigit, value))
  {
    masked := "";
    for i := 0 to |value|
      invariant masked == HideDigits(value, 0, Count(IsDigit, value))[..i]
    {
      RankMonotone(IsDigit, value, i, |value|);
      masked := masked + [if IsDigit(value[i]) then '*' else value[i]];
    }
  }

  method MaskDigitsAfter(value: string, keepDigits: nat) returns (masked: string)
    ensures masked == HideDigits(value, keepDigits, Count(IsDigit, value))
  {
    var seenDigits := 0;
    masked := "";
    for i := 0 to |value|
      invariant seenDigits == Rank(IsDigit, value, i)
      invariant masked == HideDigits(value, keepDigits, Count(IsDigit, value))[..i]
    {
      RankMonotone(IsDigit, value, i, |value|);
      if !IsDigit(value[i]) {
        masked := masked + [value[i]];
        continue;
      }
      if seenDigits < keepDigits {
        masked := masked + [value[i]];
      } else {
        masked := masked + ['*'];
      }
      seenDigits := seenDigits + 1;
    }
  }

  method MaskKeepTrailingDigits(value: string, trailingDigits: nat) returns (masked: string)
    ensures masked == KeepTrailingDigits(value, trailingDigits)
  {
    var totalDigits := CountDigits(value);
    if totalDigits <= trailingDigits {
      masked := MaskAllDigits(value);
      return;
    }
    var visibleFrom := totalDigits - trailingDigits;
    var seenDigits := 0;
    masked := "";
    for i := 0 to |value|
      invariant seenDigits == Rank(IsDigit, value, i)
      invariant masked == HideDigits(value, 0, visibleFrom)[..i]
    {
      if !IsDigit(value[i]) {
        masked := masked + [value[i]];
        continue;
      }
      if seenDigits >= visibleFrom {
        masked := masked + [value[i]];
      } else {
        masked := masked + ['*'];
      }
      seenDigits := seenDigits + 1;
    }
  }

  method MaskLastDigits(value: string, lastDigits: nat) returns (masked: string)
    ensures masked == HideLastDigits(value, lastDigits)
  {
    var totalDigits := CountDigits(value);
    if totalDigits <= lastDigits {
      masked := MaskAllDigits(value);
      return;
    }
    var maskFrom := totalDigits - lastDigits;
    var seenDigits := 0;
    masked := "";
    for i := 0 to |value|
      invariant seenDigits == Rank(IsDigit, value, i)
      invariant masked == HideDigits(value, maskFrom, totalDigits)[..i]
    {
      RankMonotone(IsDigit, value, i, |value|);
      if !IsDigit(value[i]) {
        masked := masked + [value[i]];
        continue;
      }
      if seenDigits < maskFrom {
        masked := masked + [value[i]];
      } else {
        masked := masked + ['*'];
      }
      seenDigits := seenDigits + 1;
    }
  }

  method MaskDigitsRange(value: string, keepLeadingDigits: nat, keepTrailingDigits: nat) returns (masked: string)
    ensures masked == HideDigitsRange(value, keepLeadingDigits, keepTrailingDigits)
  {
    var totalDigits := CountDigits(value);
    if totalDigits == 0 {
      masked := value;
      return;
    }
    if keepLeadingDigits + keepTrailingDigits >= totalDigits {
      masked := MaskAllDigits(value);
      return;
    }
    var maskAfter, maskBefore := keepLeadingDigits, totalDigits - keepTrailingDigits;
    var seenDigits := 0;
    masked := "";
    for i := 0 to |value|
      invariant seenDigits == Rank(IsDigit, value, i)
      invariant masked == HideDigits(value, maskAfter, maskBefore)[..i]
    {
      if !IsDigit(value[i]) {
        masked := masked + [value[i]];
        continue;
      }
      if seenDigits < maskAfter || seenDigits >= maskBefore {
        masked := masked + [value[i]];
      } else {
        masked := masked + ['*'];
      }
      seenDigits := seenDigits + 1;
    }
  }

  // ----- position rules, which overwrite a copy of the runes in place -----

  function HideVisible(v: string): string {
    seq(|v|, i requires 0 <= i < |v| => if IsVisible(v[i]) then '*' else v[i])
  }

  function HideTrailing(v: string, trailing: nat): string {
    if |v| <= trailing then Stars(|v|)
    else seq(|v|, i requires 0 <= i < |v| => if i >= |v| - trailing && IsVisible(v[i]) then '*' else v[i])
  }

  /** Hides every second visible rune, starting with the second. */
  function HideEven(v: string): string {
    seq(|v|, i requires 0 <= i < |v| => if IsVisible(v[i]) && Rank(IsVisible, v, i) % 2 == 1 then '*' else v[i])
  }

  method MaskAllVisible(value: string) returns (masked: string)
    ensures masked == HideVisible(value)
  {
    var runes := new char[|value|](i requires 0 <= i < |value| => value[i]);
    for index := 0 to |value|
      invariant forall k | 0 <= k < index :: runes[k] == HideVisible(value)[k]
      invariant forall k | index <= k < |value| :: runes[k] == value[k]
    {
      if !IsBlank(value[index]) {
        runes[index] := '*';
      }
    }
    masked := runes[..];
  }

  method MaskTrailingRunes(value: string, trailing: nat) returns (masked: string)
    ensures masked == HideTrailing(value, trailing)
  {
    if |value| <= trailing {
      return Stars(|value|);
    }
    var runes := new char[|value|](i requires 0 <= i < |value| => value[i]);
    for index := |value| - trailing to |value|
      invariant forall k | 0 <= k < index :: runes[k] == HideTrailing(value, trailing)[k]
      invariant forall k | index <= k < |value| :: runes[k] == value[k]
    {
      if !IsBlank(runes[index]) {
        runes[index] := '*';
      }
    }
    masked := runes[..];
  }

  method MaskEveryEvenRune(value: string) returns (masked: string)
    ensures masked == HideEven(value)
  {
    var runes := new char[|value|](i requires 0 <= i < |value| => value[i]);
    var count := 0;
    for index := 0 to |value|
      invariant count == Rank(IsVisible, value, index)
      invariant forall k | 0 <= k < index :: runes[k] == HideEven(value)[k]
      invariant forall k | index <= k < |value| :: runes[k] == value[k]
    {
      if IsBlank(value[index]) {
        continue;
      }
      count := count + 1;
      if count % 2 == 0 {
        runes[index] := '*';
      }
    }
    masked := runes[..];
  }

  // ----- driver licence -----

  predicate DigitsAt(v: string, i: nat, n: nat) {
    i + n <= |v| && forall j | i <= j < i + n :: IsDigit(v[j])
  }

  predicate IsSeparator(c: char) {
    c == '-' || c == ' '
  }

  function SkipSeparator(v: string, i: nat): nat {
    if i < |v| && IsSeparator(v[i]) then i + 1 else i
  }

  /** Where the six digits of the third group start, when v has the licence shape. */
  function LicenseGroup(v: string): (group: Option<nat>)
    ensures group.Some? ==> DigitsAt(v, group.value, 6)
  {
    var second := SkipSeparator(v, 2);
    var third := SkipSeparator(v, second + 2);
    var last := SkipSeparator(v, third + 6);
    if DigitsAt(v, 0, 2) && DigitsAt(v, second, 2) && DigitsAt(v, third, 6) && DigitsAt(v, last, 2) && last + 2 == |v|
    then Some(third) else None
  }

  /** The licence pattern spelled out: 2, 2, 6 and 2 digits with p, q and r optional separators between. */
  ghost predicate LicenseShape(v: string, p: nat, q: nat, r: nat) {
    && p <= 1 && q <= 1 && r <= 1 && |v| == 12 + p + q + r
    && DigitsAt(v, 0, 2) && DigitsAt(v, 2 + p, 2) && DigitsAt(v, 4 + p + q, 6) && DigitsAt(v, 10 + p + q + r, 2)
    && (p == 1 ==> IsSeparator(v[2]))
    && (q == 1 ==> IsSeparator(v[4 + p]))
    && (r == 1 ==> IsSeparator(v[10 + p + q]))
  }

  lemma LicenseGroupMatchesThePattern(v: string)
    ensures LicenseGroup(v).Some? <==> exists p, q, r :: LicenseShape(v, p, q, r)
  {
    if LicenseGroup(v).Some? {
      var second := SkipSeparator(v, 2);
      var third := SkipSeparator(v, second + 2);
      var last := SkipSeparator(v, third + 6);
      assert LicenseShape(v, second - 2, third - second - 2, last - third - 6);
    }
    if exists p, q, r :: LicenseShape(v, p, q, r) {
      var p: nat, q: nat, r: nat :| LicenseShape(v, p, q, r);
      assert IsDigit(v[2 + p]) && IsDigit(v[4 + p + q]) && IsDigit(v[10 + p + q + r]);
      assert SkipSeparator(v, 2) == 2 + p;
      assert SkipSeparator(v, 4 + p) == 4 + p + q;
      assert SkipSeparator(v, 10 + p + q) == 10 + p + q + r;
    }
  }

  function MaskLicenseGroup(v: string, group: nat): string
    requires group + 6 <= |v|
  {
    v[..group] + Stars(6) + v[group + 6..]
  }

  function MaskDriverLicense(v: string): string {
    match LicenseGroup(v)
    case Some(group) => MaskLicenseGroup(v, group)
    case None => HideDigitsRange(v, 4, 2)
  }

  lemma LicenseRanks(v: string, group: nat)
    requires LicenseGroup(v) == Some(group)
    ensures group + 6 <= |v|
    ensures Rank(IsDigit, v, group) == 4 && Rank(IsDigit, v, group + 6) == 10 && Count(IsDigit, v) == 12
  {
    var second := SkipSeparator(v, 2);
    var last := SkipSeparator(v, group + 6);
    RankOfRun(IsDigit, v, 0, 2, true);
    RankOfRun(IsDigit, v, 2, second, false);
    RankOfRun(IsDigit, v, second, second + 2, true);
    RankOfRun(IsDigit, v, second + 2, group, false);
    RankOfRun(IsDigit, v, group, group + 6, true);
    RankOfRun(IsDigit, v, group + 6, last, false);
    RankOfRun(IsDigit, v, last, |v|, true);
  }

  /** The pattern branch is the general digit range after all. */
  lemma LicenseBranchIsTheDigitRange(v: string)
    ensures MaskDriverLicense(v) == HideDigitsRange(v, 4, 2)
  {
    if LicenseGroup(v).Some? {
      var group := LicenseGroup(v).value;
      LicenseRanks(v, group);
      hide LicenseGroup, HideDigits, MaskLicenseGroup, IsDigit;
      forall i | 0 <= i < |v|
        ensures |MaskLicenseGroup(v, group)| == |HideDigits(v, 4, 10)| == |v|
        ensures MaskLicenseGroup(v, group)[i] == HideDigits(v, 4, 10)[i]
      {
        LicenseRune(v, group, i);
      }
    }
  }

  lemma LicenseRune(v: string, group: nat, i: nat)
    requires i < |v| && group + 6 <= |v| && DigitsAt(v, group, 6)
    requires Rank(IsDigit, v, group) == 4 && Rank(IsDigit, v, group + 6) == 10
    ensures |MaskLicenseGroup(v, group)| == |HideDigits(v, 4, 10)| == |v|
    ensures MaskLicenseGroup(v, group)[i] == HideDigits(v, 4, 10)[i]
  {
    if i < group {
      RankMonotone(IsDigit, v, i, group);
    } else if i < group + 6 {
      RankMonotone(IsDigit, v, group, i);
      RankMonotone(IsDigit, v, i, group + 6);
    } else {
      RankMonotone(IsDigit, v, group + 6, i);
    }
    hide IsDigit, Rank;
  }

  method MaskLicenseByLoops(value: string) returns (masked: string)
    ensures masked == HideDigitsRange(value, 4, 2) == MaskDriverLicense(value)
  {
    LicenseBranchIsTheDigitRange(value);
    match LicenseGroup(value) {
      case Some(group) => masked := MaskLicenseGroup(value, group);
      case None => masked := MaskDigitsRange(value, 4, 2);
    }
  }

  // ----- bank account -----

  function LastSeparator(v: string): (k: int)
    ensures -1 <= k < |v|
    ensures k >= 0 ==> IsSeparator(v[k])
    ensures forall i | k < i < |v| :: !IsSeparator(v[i])
  {
    if v == "" then -1
    else if IsSeparator(v[|v| - 1]) then |v| - 1
    else LastSeparator(v[..|v| - 1])
  }

  function MaskAccountNumber(v: string): string {
    var k := LastSeparator(v);
    if 0 <= k < |v| - 1
    then HideDigits(v[..k + 1], 0, Count(IsDigit, v[..k + 1])) + v[k + 1..]
    else KeepTrailingDigits(v, 4)
  }

  /** The digits after the last separator if there are any runes after it, and else the last four of more than four. */
  predicate AccountShows(v: string, i: nat)
    requires i < |v|
  {
    var k := LastSeparator(v);
    if 0 <= k < |v| - 1 then i > k else Count(IsDigit, v) > 4 && Rank(IsDigit, v, i) >= Count(IsDigit, v) - 4
  }

  lemma AccountHeadIsHidden(v: string, k: nat, i: nat)
    requires i <= k < |v| - 1 && LastSeparator(v) == k
    ensures |MaskAccountNumber(v)| == |v|
    ensures MaskAccountNumber(v)[i] == if IsDigit(v[i]) then '*' else v[i]
  {
    hide LastSeparator, IsDigit, Count;
    var head := v[..k + 1];
    DigitsBelowTheCount(head, i);
    hide HideDigits;
  }

  lemma DigitsBelowTheCount(v: string, i: nat)
    requires i < |v|
    ensures HideDigits(v, 0, Count(IsDigit, v))[i] == if IsDigit(v[i]) then '*' else v[i]
  {
    RankMonotone(IsDigit, v, i, |v|);
  }

  /** An account number keeps every rune that is no digit, and of its digits exactly those it shows. */
  lemma AccountHidesTheOtherDigits(v: string, i: nat)
    requires i < |v|
    ensures |MaskAccountNumber(v)| == |v|
    ensures MaskAccountNumber(v)[i] == if IsDigit(v[i]) && !AccountShows(v, i) then '*' else v[i]
  {
    var k := LastSeparator(v);
    if 0 <= k < |v| - 1 && i <= k {
      AccountHeadIsHidden(v, k, i);
      hide MaskAccountNumber;
    } else {
      RankMonotone(IsDigit, v, i, |v|);
      hide LastSeparator;
    }
  }

  lemma AccountHidesExactlyTheOtherDigits(v: string)
    ensures |MaskAccountNumber(v)| == |v|
    ensures forall i | 0 <= i < |v| ::
              MaskAccountNumber(v)[i] == if IsDigit(v[i]) && !AccountShows(v, i) then '*' else v[i]
  {
    assert |MaskAccountNumber(v)| == |v| by { hide LastSeparator; }
    hide MaskAccountNumber, AccountShows, IsDigit;
    forall i | 0 <= i < |v|
      ensures MaskAccountNumber(v)[i] == if IsDigit(v[i]) && !AccountShows(v, i) then '*' else v[i]
    {
      AccountHidesTheOtherDigits(v, i);
    }
  }

  method MaskAccountByLoops(value: string) returns (masked: string)
    ensures |masked| == |value|
    ensures forall i | 0 <= i < |value| ::
              masked[i] == if IsDigit(value[i]) && !AccountShows(value, i) then '*' else value[i]
    ensures masked == MaskAccountNumber(value)
  {
    hide HideDigits, KeepTrailingDigits, LastSeparator, AccountShows, IsDigit;
    var lastSeparator := LastSeparator(value);
    if 0 <= lastSeparator < |value| - 1 {
      masked := MaskAllDigits(value[..lastSeparator + 1]);
      masked := masked + value[lastSeparator + 1..];
    } else {
      masked := MaskKeepTrailingDigits(value, 4);
    }
    hide MaskAccountNumber;
    AccountHidesExactlyTheOtherDigits(value);
  }

  lemma AccountIsGentle(v: string)
    ensures Gentle(v, MaskAccountNumber(v))
  {
    var k := LastSeparator(v);
    if 0 <= k < |v| - 1 {
      var head := HideDigits(v[..k + 1], 0, Count(IsDigit, v[..k + 1]));
      forall i | 0 <= i < |v|
        ensures var r := (head + v[k + 1..])[i]; r == v[i] || (r == '*' && !IsBlank(v[i]))
      {
      }
    }
  }

  // ----- e-mail and IP address -----

  function FirstAt(v: string): (k: nat)
    ensures k <= |v|
    ensures k < |v| ==> v[k] == '@'
    ensures forall i | 0 <= i < k :: v[i] != '@'
  {
    if v == "" || v[0] == '@' then 0 else 1 + FirstAt(v[1..])
  }

  /** A non-empty local part, an at sign, and a non-empty rest on one line. */
  predicate LooksLikeEmail(v: string) {
    var at := FirstAt(v);
    0 < at && at + 1 < |v| && '\n' !in v[at + 1..]
  }

  /** A value looks like an e-mail address iff it is the two groups of the pattern with an at sign between. */
  lemma LooksLikeEmailIff(v: string)
    ensures LooksLikeEmail(v) <==> exists local: string, rest: string ::
              v == local + "@" + rest && local != "" && '@' !in local && rest != "" && '\n' !in rest
  {
    if LooksLikeEmail(v) {
      var at := FirstAt(v);
      assert v == v[..at] + "@" + v[at + 1..];
    }
    if local: string, rest: string :|
      v == local + "@" + rest && local != "" && '@' !in local && rest != "" && '\n' !in rest {
      assert FirstAt(v) == |local| by {
        assert v[|local|] == '@';
        assert forall i | 0 <= i < |local| :: v[i] == local[i];
      }
      assert v[|local| + 1..] == rest;
    }
  }

  function HideLocal(local: string): string {
    seq(|local|, i requires 0 <= i < |local| => if |local| <= 4 || i >= 3 then '*' else local[i])
  }

  function MaskEmail(v: string): string {
    if LooksLikeEmail(v) then HideLocal(v[..FirstAt(v)]) + "@" + v[FirstAt(v) + 1..] else HideVisible(v)
  }

  method MaskEmailInPlace(value: string) returns (masked: string)
    ensures masked == MaskEmail(value)
  {
    if !LooksLikeEmail(value) {
      masked := MaskAllVisible(value);
      return;
    }
    var prefix := value[..FirstAt(value)];
    var local := new char[|prefix|](i requires 0 <= i < |prefix| => prefix[i]);
    for index := 0 to |prefix|
      invariant forall k | 0 <= k < index :: local[k] == HideLocal(prefix)[k]
      invariant forall k | index <= k < |prefix| :: local[k] == prefix[k]
    {
      if |prefix| <= 4 || index >= 3 {
        local[index] := '*';
      }
    }
    assert local[..] == HideLocal(prefix);
    masked := local[..] + "@" + value[FirstAt(value) + 1..];
  }

  function DigitRun(v: string, i: nat): (n: nat)
    requires i <= |v|
    ensures DigitsAt(v, i, n)
    ensures i + n < |v| ==> !IsDigit(v[i + n])
    decreases |v| - i
  {
    if i < |v| && IsDigit(v[i]) then 1 + DigitRun(v, i + 1) else 0
  }

  predicate OctetAt(v: string, i: nat)
    requires i <= |v|
  {
    1 <= DigitRun(v, i) <= 3
  }

  predicate DotAt(v: string, i: nat) {
    i < |v| && v[i] == '.'
  }

  /** The third octet of a dotted quad. */
  function ThirdOctet(v: string): (octet: Option<Span>)
    ensures octet.Some? ==> octet.value.start < octet.value.end <= |v|
    ensures octet.Some? ==> forall i | octet.value.start <= i < octet.value.end :: IsDigit(v[i])
  {
    var a := DigitRun(v, 0);
    if !OctetAt(v, 0) || !DotAt(v, a) then None else
    var b := a + 1 + DigitRun(v, a + 1);
    if !OctetAt(v, a + 1) || !DotAt(v, b) then None else
    var c := b + 1 + DigitRun(v, b + 1);
    if !OctetAt(v, b + 1) || !DotAt(v, c) then None else
    if OctetAt(v, c + 1) && c + 1 + DigitRun(v, c + 1) == |v| then Some(Span(b + 1, c)) else None
  }

  /** Three dots, and one to three digits before, between and behind them. */
  predicate QuadShape(v: string, a: nat, b: nat, c: nat) {
    && a < b < c < |v|
    && 1 <= a <= 3 && 1 <= b - a - 1 <= 3 && 1 <= c - b - 1 <= 3 && 1 <= |v| - c - 1 <= 3
    && v[a] == '.' && v[b] == '.' && v[c] == '.'
    && DigitsAt(v, 0, a) && DigitsAt(v, a + 1, b - a - 1)
    && DigitsAt(v, b + 1, c - b - 1) && DigitsAt(v, c + 1, |v| - c - 1)
  }

  lemma {:induction false} DigitRunIs(v: string, i: nat, n: nat)
    requires DigitsAt(v, i, n) && (i + n < |v| ==> !IsDigit(v[i + n]))
    ensures DigitRun(v, i) == n
    decreases n
  {
    if n > 0 {
      DigitRunIs(v, i + 1, n - 1);
    }
  }

  lemma AQuadIsFound(v: string, a: nat, b: nat, c: nat)
    requires QuadShape(v, a, b, c)
    ensures ThirdOctet(v) == Some(Span(b + 1, c))
  {
    hide DigitRun, DigitsAt;
    OctetRun(v, 0, a);
    OctetRun(v, a + 1, b);
    OctetRun(v, b + 1, c);
    OctetRun(v, c + 1, |v|);
  }

  lemma OctetRun(v: string, i: nat, dot: nat)
    requires i <= dot <= |v| && DigitsAt(v, i, dot - i) && (dot == |v| || DotAt(v, dot))
    ensures DigitRun(v, i) == dot - i
  {
    DigitRunIs(v, i, dot - i);
  }

  /** The scan finds the third octet of exactly the values with the shape of the pattern. */
  lemma ThirdOctetMatchesThePattern(v: string)
    ensures ThirdOctet(v).Some? <==> exists a: nat, b: nat, c: nat :: QuadShape(v, a, b, c)
    ensures forall a: nat, b: nat, c: nat | QuadShape(v, a, b, c) :: ThirdOctet(v) == Some(Span(b + 1, c))
  {
    if ThirdOctet(v).Some? {
      var a := DigitRun(v, 0);
      var b := a + 1 + DigitRun(v, a + 1);
      assert QuadShape(v, a, b, b + 1 + DigitRun(v, b + 1));
    }
    hide QuadShape, ThirdOctet;
    forall a: nat, b: nat, c: nat | QuadShape(v, a, b, c)
      ensures ThirdOctet(v) == Some(Span(b + 1, c))
    {
      AQuadIsFound(v, a, b, c);
    }
  }

  /** The third octet of a dotted quad, or every visible rune of any other value. */
  predicate IpHides(v: string, i: nat)
    requires i < |v|
  {
    if ThirdOctet(v).Some? then ThirdOctet(v).value.Has(i) else IsVisible(v[i])
  }

  function MaskIpAddress(v: string): string {
    match ThirdOctet(v)
    case Some(octet) => v[..octet.start] + Stars(octet.end - octet.start) + v[octet.end..]
    case None => HideVisible(v)
  }

  method MaskIpByLoops(value: string) returns (masked: string)
    ensures |masked| == |value|
    ensures forall i | 0 <= i < |value| :: masked[i] == if IpHides(value, i) then '*' else value[i]
    ensures masked == MaskIpAddress(value)
  {
    hide ThirdOctet, HideVisible;
    match ThirdOctet(value) {
      case Some(octet) => masked := value[..octet.start] + Stars(octet.end - octet.start) + value[octet.end..];
      case None => masked := MaskAllVisible(value);
    }
    IpHidesTheOctet(value);
    hide MaskIpAddress, IpHides;
  }

  lemma IpHidesTheOctet(v: string)
    ensures |MaskIpAddress(v)| == |v|
    ensures forall i | 0 <= i < |v| :: MaskIpAddress(v)[i] == if IpHides(v, i) then '*' else v[i]
  {
    hide ThirdOctet;
  }

  lemma IpIsGentle(v: string)
    ensures Gentle(v, MaskIpAddress(v))
  {
    hide ThirdOctet;
  }

  lemma EmailIsStarred(v: string)
    ensures StarredFrom(v, MaskEmail(v))
    ensures !LooksLikeEmail(v) ==> Gentle(v, MaskEmail(v))
  {
  }

  // ----- address -----

  function NonSpaceMarks(v: string): (marks: seq<bool>)
    ensures |marks| == |v|
  {
    seq(|v|, i requires 0 <= i < |v| => !IsSpace(v[i]))
  }

  /** The tokens of an address are its maximal runs without space. */
  function Tokens(v: string): seq<Span> {
    Runs(NonSpaceMarks(v))
  }

  lemma TokensAreExact(v: string)
    ensures Separated(Tokens(v), |v|)
    ensures forall i | 0 <= i < |v| :: !IsSpace(v[i]) <==> InSome(Tokens(v), i)
  {
    RunsAreExact(NonSpaceMarks(v));
  }

  predicate EndsAtBoundary(v: string, token: Span) {
    token.start < token.end <= |v| && v[token.end - 1] in "로길동읍면리"
  }

  function FirstBoundary(v: string, tokens: seq<Span>): (k: nat)
    ensures k <= |tokens|
    ensures k < |tokens| ==> EndsAtBoundary(v, tokens[k])
    ensures forall i | 0 <= i < k :: !EndsAtBoundary(v, tokens[i])
  {
    if tokens == [] || EndsAtBoundary(v, tokens[0]) then 0 else 1 + FirstBoundary(v, tokens[1..])
  }

  /** How many leading tokens stay readable; the last one never does. */
  function Cutoff(v: string, tokens: seq<Span>): (cutoff: nat)
    requires |tokens| >= 2
    ensures 1 <= cutoff < |tokens|
  {
    var k := FirstBoundary(v, tokens);
    var atBoundary := if k < |tokens| then k + 1 else |tokens|;
    var limited := if atBoundary == |tokens| && |tokens| > 3 then 3 else atBoundary;
    if limited >= |tokens| then |tokens| - 1 else limited
  }

  function HideFrom(v: string, cut: nat): string {
    seq(|v|, i requires 0 <= i < |v| => if i >= cut && !IsSpace(v[i]) then '*' else v[i])
  }

  function MaskAddress(v: string): string {
    var tokens := Tokens(v);
    if |tokens| == 0 then v
    else if |tokens| == 1 then HideVisible(v)
    else HideFrom(v, tokens[Cutoff(v, tokens)].start)
  }

  lemma AddressIsGentle(v: string)
    ensures Gentle(v, MaskAddress(v))
  {
    assert forall i | 0 <= i < |v| && IsBlank(v[i]) :: IsSpace(v[i]);
  }

  method SplitAddressTokens(value: string) returns (tokens: seq<Span>)
    ensures tokens == Tokens(value)
  {
    var marks := NonSpaceMarks(value);
    tokens := [];
    var start := -1;
    for index := 0 to |value|
      invariant -1 <= start < index
      invariant Scan(marks, index) == State(tokens, if start == -1 then None else Some(start))
    {
      if IsSpace(value[index]) {
        if start >= 0 {
          tokens := tokens + [Span(start, index)];
          start := -1;
        }
        continue;
      }
      if start < 0 {
        start := index;
      }
    }
    if start >= 0 {
      tokens := tokens + [Span(start, |value|)];
    }
  }

  method MaskAddressByTokens(value: string) returns (masked: string)
    ensures masked == MaskAddress(value)
  {
    TokensAreExact(value);
    hide EndsAtBoundary, HideVisible, HideFrom, Tokens, InSome;
    var tokens := SplitAddressTokens(value);
    if |tokens| == 0 {
      masked := value;
      return;
    }
    var cutoff := |tokens|;
    for index := 0 to |tokens|
      invariant cutoff == |tokens|
      invariant forall i | 0 <= i < index :: !EndsAtBoundary(value, tokens[i])
    {
      if EndsAtBoundary(value, tokens[index]) {
        cutoff := index + 1;
        break;
      }
    }
    if cutoff == |tokens| && |tokens| > 3 {
      cutoff := 3;
    }
    if cutoff >= |tokens| {
      if |tokens| == 1 {
        masked := MaskAllVisible(value);
        return;
      }
      cutoff := |tokens| - 1;
    }
    masked := CoverTokens(value, tokens, cutoff);
  }

  /** Writes the value back token by token, covering those from cutoff on; the gaps are kept as they are. */
  method CoverTokens(value: string, tokens: seq<Span>, cutoff: nat) returns (masked: string)
    requires tokens == Tokens(value) && cutoff < |tokens|
    ensures masked == HideFrom(value, tokens[cutoff].start)
  {
    masked := "";
    var cursor := 0;
    for index := 0 to |tokens|
      invariant cursor == if index == 0 then 0 else tokens[index - 1].end
      invariant cursor <= |value|
      invariant masked == HideFrom(value, tokens[cutoff].start)[..cursor]
    {
      var token := tokens[index];
      GapIsSpace(value, cursor, token.start, index);
      TokenIsNotSpace(value, index);
      var text := value[token.start..token.end];
      if index >= cutoff {
        text := MaskAllVisible(text);
      }
      TokenOrder(value, cutoff, index);
      TokenOrder(value, index, cutoff);
      CoverStep(value, tokens[cutoff].start, cursor, token);
      masked := masked + value[cursor..token.start] + text;
      cursor := token.end;
    }
    GapIsSpace(value, cursor, |value|, |tokens|);
    masked := masked + value[cursor..];
  }

  lemma CoverStep(v: string, cut: nat, cursor: nat, token: Span)
    requires cursor <= token.start < token.end <= |v|
    requires Spaces(v, cursor, token.start)
    requires forall i | token.start <= i < token.end :: !IsSpace(v[i])
    requires cut <= token.start || token.end <= cut
    ensures var text := v[token.start..token.end];
            HideFrom(v, cut)[..token.end] ==
            HideFrom(v, cut)[..cursor] + v[cursor..token.start] + if cut <= token.start then HideVisible(text) else text
  {
    var hidden, text := HideFrom(v, cut), v[token.start..token.end];
    assert hidden[cursor..token.start] == v[cursor..token.start];
    if cut <= token.start {
      forall i | 0 <= i < |text|
        ensures hidden[token.start..token.end][i] == HideVisible(text)[i]
      {
        assert !IsSpace(v[token.start + i]);
      }
      assert hidden[token.start..token.end] == HideVisible(text);
    } else {
      assert hidden[token.start..token.end] == text;
    }
    assert hidden[..token.end] == hidden[..cursor] + hidden[cursor..token.start] + hidden[token.start..token.end];
  }

  lemma TokenOrder(v: string, i: nat, j: nat)
    requires i < |Tokens(v)| && j < |Tokens(v)|
    ensures i <= j ==> Tokens(v)[i].start <= Tokens(v)[j].start
    ensures i < j ==> Tokens(v)[i].end <= Tokens(v)[j].start
  {
    TokensAreExact(v);
  }

  lemma TokenIsNotSpace(v: string, index: nat)
    requires index < |Tokens(v)|
    ensures Tokens(v)[index].start < Tokens(v)[index].end <= |v|
    ensures forall i | Tokens(v)[index].start <= i < Tokens(v)[index].end :: !IsSpace(v[i])
  {
    TokensAreExact(v);
    forall i | Tokens(v)[index].start <= i < Tokens(v)[index].end
      ensures !IsSpace(v[i])
    {
      assert Tokens(v)[index].Has(i);
    }
  }

  /** Between two neighbouring tokens, and outside the outermost ones, there is only space. */
  lemma GapIsSpace(v: string, lo: nat, hi: nat, index: nat)
    requires index <= |Tokens(v)|
    requires lo == if index == 0 then 0 else Tokens(v)[index - 1].end
    requires hi == if index == |Tokens(v)| then |v| else Tokens(v)[index].start
    ensures lo <= hi <= |v| && Spaces(v, lo, hi)
  {
    TokensAreExact(v);
    forall i | lo <= i < hi
      ensures IsSpace(v[i])
    {
      assert !InSome(Tokens(v), i);
    }
  }

  /** The value up to the end of its first n tokens, put together from the gaps and the tokens. */
  function Pieces(v: string, n: nat): string
    requires n <= |Tokens(v)| && forall j | 0 <= j < n ::
      GapStart(v, j) <= Tokens(v)[j].start <= Tokens(v)[j].end <= |v|
  {
    if n == 0 then ""
    else
      var token := Tokens(v)[n - 1];
      Pieces(v, n - 1) + v[GapStart(v, n - 1)..token.start] + v[token.start..token.end]
  }

  /** Where the gap in front of a token starts, or behind the last one. */
  function GapStart(v: string, n: nat): nat
    requires n <= |Tokens(v)|
  {
    if n == 0 then 0 else Tokens(v)[n - 1].end
  }

  lemma TokensFollowTheirGaps(v: string, n: nat)
    requires n < |Tokens(v)|
    ensures GapStart(v, n) <= Tokens(v)[n].start <= Tokens(v)[n].end <= |v|
  {
    TokensAreExact(v);
  }

  lemma {:induction false} PiecesAreAPrefix(v: string, n: nat)
    requires n <= |Tokens(v)|
    ensures forall j | 0 <= j < n :: GapStart(v, j) <= Tokens(v)[j].start <= Tokens(v)[j].end <= |v|
    ensures GapStart(v, n) <= |v| && Pieces(v, n) == v[..GapStart(v, n)]
  {
    forall j | 0 <= j < n
      ensures GapStart(v, j) <= Tokens(v)[j].start <= Tokens(v)[j].end <= |v|
    {
      TokensFollowTheirGaps(v, j);
    }
    hide Tokens;
    if n > 0 {
      PiecesAreAPrefix(v, n - 1);
      var gap, token := GapStart(v, n - 1), Tokens(v)[n - 1];
      assert v[..gap] + v[gap..token.start] == v[..token.start];
      assert v[..token.start] + v[token.start..token.end] == v[..token.end];
    }
  }

  /** Gaps and tokens in turn, and the rest behind the last token, are the whole value; the gaps are all space. */
  lemma TokensAndGapsRebuildTheValue(v: string)
    ensures GapStart(v, |Tokens(v)|) <= |v|
    ensures forall j | 0 <= j < |Tokens(v)| :: GapStart(v, j) <= Tokens(v)[j].start <= Tokens(v)[j].end <= |v|
    ensures Pieces(v, |Tokens(v)|) + v[GapStart(v, |Tokens(v)|)..] == v
    ensures Spaces(v, GapStart(v, |Tokens(v)|), |v|)
    ensures forall j | 0 <= j < |Tokens(v)| :: Spaces(v, GapStart(v, j), Tokens(v)[j].start)
  {
    PiecesAreAPrefix(v, |Tokens(v)|);
    GapIsSpace(v, GapStart(v, |Tokens(v)|), |v|, |Tokens(v)|);
    forall j | 0 <= j < |Tokens(v)|
      ensures Spaces(v, GapStart(v, j), Tokens(v)[j].start)
    {
      GapIsSpace(v, GapStart(v, j), Tokens(v)[j].start, j);
    }
    hide Tokens, Pieces, GapStart;
  }
}
