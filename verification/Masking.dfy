/** Masking a value under a rule, the spans it hides, and what a reader still sees. */
module Masking {
  import opened Runes
  import opened Wrappers
  import opened RunScan
  import opened MaskPolicy

  function MaskTrimmed(rule: Rule, v: string): string {
    match rule
    case ResidentRegistration => HideDigits(v, 6, Count(IsDigit, v))
    case AlienRegistration => HideDigits(v, 6, Count(IsDigit, v))
    case DriverLicense => MaskDriverLicense(v)
    case Passport => HideTrailing(v, 4)
    case MobilePhone => HideLastDigits(v, 4)
    case Telephone => HideLastDigits(v, 4)
    case CreditCard => KeepTrailingDigits(v, 4)
    case BankAccount => MaskAccountNumber(v)
    case PersonName => HideEven(v)
    case EmailAddress => MaskEmail(v)
    case IpAddress => MaskIpAddress(v)
    case Address => MaskAddress(v)
    case Generic => HideVisible(v)
  }

  /** A rule that would hand its input back unchanged gives way to the full mask. */
  function MaskCore(rule: Rule, v: string): string {
    if MaskTrimmed(rule, v) == v then HideVisible(v) else MaskTrimmed(rule, v)
  }

  function RestoreSurroundingSpace(original: string, trimmed: string, masked: string): string {
    if original == trimmed then masked
    else
      var withoutLeading := TrimLeft(original);
      original[..|original| - |withoutLeading|] + masked + withoutLeading[|TrimRight(withoutLeading)|..]
  }

  function MaskValue(rule: Rule, value: string): string {
    var trimmed := TrimSpace(value);
    if trimmed == "" then value else RestoreSurroundingSpace(value, trimmed, MaskCore(rule, trimmed))
  }

  function AppliedRule(rule: Rule, value: string): Applied {
    if TrimSpace(value) == "" then Empty else By(rule)
  }

  /** A value of nothing but space is reported as empty, and any other under its rule. */
  lemma AppliedRuleIs(rule: Rule, value: string)
    ensures AppliedRule(rule, value) == if forall i | 0 <= i < |value| :: IsSpace(value[i]) then Empty else By(rule)
  {
    BlankIffAllSpace(value);
  }

  method ComputeMaskedTrimmed(rule: Rule, v: string) returns (masked: string)
    ensures masked == MaskTrimmed(rule, v)
  {
    hide HideDigits, MaskDriverLicense, HideTrailing, HideLastDigits, KeepTrailingDigits, MaskAccountNumber;
    hide HideEven, MaskEmail, MaskIpAddress, MaskAddress, HideVisible;
    match rule {
      case ResidentRegistration => masked := MaskDigitsAfter(v, 6);
      case AlienRegistration => masked := MaskDigitsAfter(v, 6);
      case DriverLicense => masked := MaskLicenseByLoops(v);
      case Passport => masked := MaskTrailingRunes(v, 4);
      case MobilePhone => masked := MaskLastDigits(v, 4);
      case Telephone => masked := MaskLastDigits(v, 4);
      case CreditCard => masked := MaskKeepTrailingDigits(v, 4);
      case BankAccount => masked := MaskAccountByLoops(v);
      case PersonName => masked := MaskEveryEvenRune(v);
      case EmailAddress => masked := MaskEmailInPlace(v);
      case IpAddress => masked := MaskIpByLoops(v);
      case Address => masked := MaskAddressByTokens(v);
      case Generic => masked := MaskAllVisible(v);
    }
  }

  /** The masking loops of the service, the fallback and the outer space compute MaskValue. */
  method ComputeMaskedValue(rule: Rule, value: string) returns (masked: string, applied: Applied)
    ensures masked == MaskValue(rule, value)
    ensures applied == AppliedRule(rule, value)
  {
    hide MaskTrimmed, HideVisible, RestoreSurroundingSpace, TrimSpace;
    var trimmed := TrimSpace(value);
    if trimmed == "" {
      return value, Empty;
    }
    masked := ComputeMaskedTrimmed(rule, trimmed);
    if masked == trimmed {
      masked := MaskAllVisible(trimmed);
    }
    masked := RestoreSurroundingSpace(value, trimmed, masked);
    applied := By(rule);
  }

  // ----- alignment -----

  /** Every rule but the passport and e-mail ones leaves blanks alone; all change runes into stars only. */
  lemma RulesAreGentle(rule: Rule, v: string)
    ensures StarredFrom(v, MaskTrimmed(rule, v))
    ensures rule != Passport && !(rule == EmailAddress && LooksLikeEmail(v)) ==> Gentle(v, MaskTrimmed(rule, v))
  {
    hide MaskDriverLicense, MaskAccountNumber, MaskEmail, MaskIpAddress, MaskAddress;
    match rule
    case DriverLicense =>
      LicenseBranchIsTheDigitRange(v);
      DigitWindowIsGentle(v, 4, Count(IsDigit, v) - 2);
      DigitWindowIsGentle(v, 0, Count(IsDigit, v));
    case BankAccount => AccountIsGentle(v); hide Gentle, StarredFrom;
    case EmailAddress => EmailIsStarred(v); hide Gentle, StarredFrom;
    case IpAddress => IpIsGentle(v); hide Gentle, StarredFrom;
    case Address => AddressIsGentle(v); hide Gentle, StarredFrom;
    case _ =>
  }

  lemma DigitWindowIsGentle(v: string, lo: int, hi: int)
    ensures Gentle(v, HideDigits(v, lo, hi))
  {
  }

  lemma RulesKeepAlignment(rule: Rule, v: string)
    ensures StarredFrom(v, MaskTrimmed(rule, v))
    ensures StarredFrom(v, MaskCore(rule, v))
  {
    hide MaskTrimmed;
    RulesAreGentle(rule, v);
  }

  lemma CutInThree(v: string, lo: nat, hi: nat)
    requires lo <= hi <= |v|
    ensures v == v[..lo] + v[lo..hi] + v[hi..]
    ensures v[lo..][hi - lo..] == v[hi..]
  {
  }

  lemma TrimSplits(v: string)
    ensures var lead, core := Leading(v), TrimSpace(v);
            && lead + |core| <= |v|
            && v == v[..lead] + core + v[lead + |core|..]
            && |TrimLeft(v)| == |v| - lead
            && TrimLeft(v)[|core|..] == v[lead + |core|..]
            && (v == core ==> lead == 0)
  {
    TrimWindow(v);
    var lead, core := Leading(v), TrimSpace(v);
    assert TrimLeft(v) == v[lead..];
    hide Leading, TrimSpace, TrimLeft, Spaces, IsSpace;
    CutInThree(v, lead, lead + |core|);
  }

  lemma RestoreWindow(v: string, masked: string)
    ensures var lead, core := Leading(v), TrimSpace(v);
            && lead + |core| <= |v|
            && RestoreSurroundingSpace(v, core, masked) == v[..lead] + masked + v[lead + |core|..]
  {
    TrimSplits(v);
    var lead, core := Leading(v), TrimSpace(v);
    assert core == TrimRight(TrimLeft(v));
    hide TrimSpace, TrimLeft, TrimRight, Leading;
    if v == core {
      assert v[..lead] + masked + v[lead + |core|..] == masked;
    }
  }

  /** The masked value starts and ends with the original space and has the masked core in between. */
  lemma MaskValueWindow(rule: Rule, v: string)
    requires TrimSpace(v) != ""
    ensures var lead, core := Leading(v), TrimSpace(v);
            && lead + |core| <= |v|
            && |MaskCore(rule, core)| == |core|
            && MaskValue(rule, v) == v[..lead] + MaskCore(rule, core) + v[lead + |core|..]
            && v == v[..lead] + core + v[lead + |core|..]
  {
    hide MaskCore, RestoreSurroundingSpace, TrimSpace;
    TrimSplits(v);
    RestoreWindow(v, MaskCore(rule, TrimSpace(v)));
    RulesKeepAlignment(rule, TrimSpace(v));
  }

  /** Every rule keeps the rune count, changes a rune only into a star, and leaves the outer space alone. */
  lemma MaskValueIsAligned(rule: Rule, v: string)
    ensures StarredFrom(v, MaskValue(rule, v))
    ensures forall i | 0 <= i < |v| && (i < Leading(v) || i >= Leading(v) + |TrimSpace(v)|) ::
      MaskValue(rule, v)[i] == v[i]
  {
    hide MaskCore, RestoreSurroundingSpace, TrimSpace;
    if TrimSpace(v) != "" {
      MaskValueWindow(rule, v);
      RulesKeepAlignment(rule, TrimSpace(v));
      hide MaskValue, StarredFrom;
      var lead, core := Leading(v), TrimSpace(v);
      AlignedInside(v[..lead], core, MaskCore(rule, core), v[lead + |core|..]);
    }
  }

  lemma AlignedInside(a: string, core: string, masked: string, b: string)
    requires StarredFrom(core, masked)
    ensures StarredFrom(a + core + b, a + masked + b)
    ensures forall i | 0 <= i < |a + core + b| && (i < |a| || i >= |a| + |core|) ::
      (a + masked + b)[i] == (a + core + b)[i]
  {
  }

  lemma CoreAt(rule: Rule, v: string, j: nat)
    requires j < |TrimSpace(v)|
    ensures Leading(v) + j < |v| == |MaskValue(rule, v)|
    ensures |MaskCore(rule, TrimSpace(v))| == |TrimSpace(v)|
    ensures MaskValue(rule, v)[Leading(v) + j] == MaskCore(rule, TrimSpace(v))[j]
    ensures v[Leading(v) + j] == TrimSpace(v)[j]
  {
    hide MaskCore, MaskValue, TrimSpace;
    MaskValueWindow(rule, v);
    var lead, core, masked := Leading(v), TrimSpace(v), MaskCore(rule, TrimSpace(v));
    assert (v[..lead] + masked + v[lead + |core|..])[lead + j] == masked[j];
    assert (v[..lead] + core + v[lead + |core|..])[lead + j] == core[j];
  }

  // ----- hiding -----

  /** Nothing left to hide: every visible rune is a star already. */
  predicate AllStars(v: string) {
    forall i | 0 <= i < |v| :: v[i] == '*' || IsBlank(v[i])
  }

  predicate HasBlank(v: string) {
    exists i | 0 <= i < |v| :: IsBlank(v[i])
  }

  /** A short passport number is replaced as a block, blanks included. */
  predicate StarsOverBlank(rule: Rule, core: string) {
    rule == Passport && |core| <= 4 && HasBlank(core)
  }

  lemma RulesFixStars(rule: Rule, v: string)
    requires AllStars(v) && v != ""
    ensures MaskTrimmed(rule, v) == v <==> !StarsOverBlank(rule, v)
  {
    RulesAreGentle(rule, v);
    if rule == Passport {
      if |v| <= 4 && HasBlank(v) {
        var i :| 0 <= i < |v| && IsBlank(v[i]);
        assert Stars(|v|)[i] == '*';
      }
    } else {
      hide MaskTrimmed;
      assert !(rule == EmailAddress && LooksLikeEmail(v));
    }
  }

  /** A value with something to hide never comes back unchanged; exactly when one without does. */
  lemma MaskValueReturnsTheInputIff(rule: Rule, v: string)
    requires TrimSpace(v) != ""
    ensures MaskValue(rule, v) == v <==> AllStars(TrimSpace(v)) && !StarsOverBlank(rule, TrimSpace(v))
  {
    hide MaskTrimmed, MaskValue, TrimSpace;
    var lead, core := Leading(v), TrimSpace(v);
    MaskValueWindow(rule, v);
    var masked := MaskCore(rule, core);
    assert (v[..lead] + masked + v[lead + |core|..])[lead..lead + |core|] == masked;
    assert (v[..lead] + core + v[lead + |core|..])[lead..lead + |core|] == core;
    if masked == core {
      assert HideVisible(core) == core;
      assert forall i | 0 <= i < |core| :: HideVisible(core)[i] == core[i];
    }
    if AllStars(core) {
      RulesFixStars(rule, core);
      assert HideVisible(core) == core;
    }
  }

  // ----- digits -----

  predicate DigitRule(rule: Rule) {
    rule in {ResidentRegistration, AlienRegistration, DriverLicense, MobilePhone, Telephone, CreditCard}
  }

  /** The ranks of the digits a rule hides, out of total. */
  function Window(rule: Rule, total: nat): (int, int)
    requires DigitRule(rule)
  {
    match rule
    case DriverLicense => if total <= 6 then (0, total) else (4, total - 2)
    case CreditCard => if total <= 4 then (0, total) else (0, total - 4)
    case MobilePhone => if total <= 4 then (0, total) else (total - 4, total)
    case Telephone => if total <= 4 then (0, total) else (total - 4, total)
    case _ => (6, total)
  }

  predicate InWindow(rule: Rule, total: nat, rank: nat)
    requires DigitRule(rule)
  {
    Window(rule, total).0 <= rank < Window(rule, total).1
  }

  /** Every digit rule is one window over digit ranks. */
  lemma DigitRulesHideOneWindow(rule: Rule, v: string)
    requires DigitRule(rule)
    ensures MaskTrimmed(rule, v) == HideDigits(v, Window(rule, Count(IsDigit, v)).0, Window(rule, Count(IsDigit, v)).1)
  {
    if rule == DriverLicense {
      LicenseBranchIsTheDigitRange(v);
    }
  }

  lemma {:induction false} SomeDigitHasRank(v: string, n: nat, rank: nat) returns (i: nat)
    requires n <= |v| && rank < Rank(IsDigit, v, n)
    ensures i < n && IsDigit(v[i]) && Rank(IsDigit, v, i) == rank
  {
    if IsDigit(v[n - 1]) && Rank(IsDigit, v, n - 1) == rank {
      i := n - 1;
    } else {
      i := SomeDigitHasRank(v, n - 1, rank);
    }
  }

  lemma DigitIsShownInCoreIff(rule: Rule, core: string, j: nat)
    requires DigitRule(rule) && j < |core| && IsDigit(core[j])
    ensures |MaskCore(rule, core)| == |core|
    ensures var total := Count(IsDigit, core);
            MaskCore(rule, core)[j] == core[j] <==>
            Window(rule, total).0 < Window(rule, total).1 && !InWindow(rule, total, Rank(IsDigit, core, j))
  {
    hide MaskTrimmed;
    DigitRulesHideOneWindow(rule, core);
    var total := Count(IsDigit, core);
    var w := Window(rule, total);
    RankMonotone(IsDigit, core, j, |core|);
    if w.0 < w.1 {
      var k := SomeDigitHasRank(core, |core|, w.0);
      assert MaskTrimmed(rule, core)[k] != core[k];
    } else {
      assert MaskTrimmed(rule, core) == core;
    }
  }

  /** Which digits of a value stay readable: those outside the window, if the window holds any digit at all. */
  lemma DigitIsShownIff(rule: Rule, v: string, i: nat)
    requires DigitRule(rule) && i < |v| && IsDigit(v[i])
    ensures |MaskValue(rule, v)| == |v|
    ensures var total := Count(IsDigit, v);
            MaskValue(rule, v)[i] == v[i] <==>
            Window(rule, total).0 < Window(rule, total).1 && !InWindow(rule, total, Rank(IsDigit, v, i))
  {
    hide MaskCore, MaskValue, TrimSpace;
    TrimWindow(v);
    BlankIffAllSpace(v);
    var core, j := TrimSpace(v), i - Leading(v);
    assert 0 <= j < |core|;
    CoreAt(rule, v, j);
    TrimKeepsRank(IsDigit, v, j);
    DigitIsShownInCoreIff(rule, core, j);
  }

  /** A registration number shows exactly its first six digits, or none. */
  lemma RegistrationNumberShowsSixOrNone(rule: Rule, v: string, i: nat)
    requires rule == ResidentRegistration || rule == AlienRegistration
    requires i < |v| && IsDigit(v[i])
    ensures |MaskValue(rule, v)| == |v|
    ensures MaskValue(rule, v)[i] == v[i] <==> Count(IsDigit, v) > 6 && Rank(IsDigit, v, i) < 6
  {
    hide MaskValue;
    DigitIsShownIff(rule, v, i);
    RankMonotone(IsDigit, v, i, |v|);
  }

  /** A card number shows its last four digits, and only when it has more than four. */
  lemma CardNumberShowsAtMostTheLastFour(v: string, i: nat)
    requires i < |v| && IsDigit(v[i])
    ensures |MaskValue(CreditCard, v)| == |v|
    ensures MaskValue(CreditCard, v)[i] == v[i]
      <==> Count(IsDigit, v) > 4 && Rank(IsDigit, v, i) >= Count(IsDigit, v) - 4
  {
    hide MaskValue;
    DigitIsShownIff(CreditCard, v, i);
    RankMonotone(IsDigit, v, i, |v|);
  }

  /** A phone number never shows its last four digits. */
  lemma PhoneNumberHidesTheLastFour(rule: Rule, v: string, i: nat)
    requires rule == MobilePhone || rule == Telephone
    requires i < |v| && IsDigit(v[i])
    ensures |MaskValue(rule, v)| == |v|
    ensures MaskValue(rule, v)[i] == v[i] <==> Rank(IsDigit, v, i) + 4 < Count(IsDigit, v)
  {
    hide MaskValue;
    DigitIsShownIff(rule, v, i);
    RankMonotone(IsDigit, v, i, |v|);
  }

  /** A driver licence shows four leading and two trailing digits, or none. */
  lemma LicenseShowsTheOuterDigits(v: string, i: nat)
    requires i < |v| && IsDigit(v[i])
    ensures |MaskValue(DriverLicense, v)| == |v|
    ensures MaskValue(DriverLicense, v)[i] == v[i] <==>
            Count(IsDigit, v) > 6 && (Rank(IsDigit, v, i) < 4 || Rank(IsDigit, v, i) >= Count(IsDigit, v) - 2)
  {
    hide MaskValue;
    DigitIsShownIff(DriverLicense, v, i);
    RankMonotone(IsDigit, v, i, |v|);
  }

  // ----- names, e-mail, IP addresses, postal addresses -----

  /** Whatever the rule hides is hidden in the result, fallback or not. */
  lemma HiddenStaysHidden(rule: Rule, v: string, j: nat)
    requires j < |TrimSpace(v)|
    ensures Leading(v) + j < |v| == |MaskValue(rule, v)|
    ensures |MaskTrimmed(rule, TrimSpace(v))| == |TrimSpace(v)|
    ensures MaskTrimmed(rule, TrimSpace(v))[j] == '*' ==> MaskValue(rule, v)[Leading(v) + j] == '*'
  {
    hide MaskTrimmed, MaskValue, TrimSpace;
    CoreAt(rule, v, j);
    RulesKeepAlignment(rule, TrimSpace(v));
  }

  /** Under every rule a rune that could be hidden stays readable iff the rule leaves it and hides something else. */
  lemma RuneIsShownIff(rule: Rule, v: string, j: nat)
    requires j < |TrimSpace(v)| && IsVisible(TrimSpace(v)[j]) && TrimSpace(v)[j] != '*'
    ensures Leading(v) + j < |v| == |MaskValue(rule, v)|
    ensures |MaskTrimmed(rule, TrimSpace(v))| == |TrimSpace(v)|
    ensures MaskValue(rule, v)[Leading(v) + j] == v[Leading(v) + j] <==>
            MaskTrimmed(rule, TrimSpace(v))[j] == TrimSpace(v)[j] && MaskTrimmed(rule, TrimSpace(v)) != TrimSpace(v)
  {
    CoreAt(rule, v, j);
    RulesKeepAlignment(rule, TrimSpace(v));
    hide MaskTrimmed, MaskValue, TrimSpace;
  }

  /** A passport number shows the runes before its last four, if it is longer and one of those four is there to be
      hidden. */
  lemma PassportShowsIff(v: string, j: nat)
    requires j < |TrimSpace(v)| && IsVisible(TrimSpace(v)[j]) && TrimSpace(v)[j] != '*'
    ensures Leading(v) + j < |v| == |MaskValue(Passport, v)|
    ensures
      var core := TrimSpace(v);
      MaskValue(Passport, v)[Leading(v) + j] == v[Leading(v) + j] <==>
      j + 4 < |core| && exists k :: |core| - 4 <= k < |core| && IsVisible(core[k]) && core[k] != '*'
  {
    hide MaskValue, TrimSpace;
    var core := TrimSpace(v);
    RuneIsShownIff(Passport, v, j);
    if k :| |core| - 4 <= k < |core| && 0 <= k && IsVisible(core[k]) && core[k] != '*' {
      assert HideTrailing(core, 4)[k] == '*';
    } else if |core| > 4 {
      assert HideTrailing(core, 4) == core;
    }
  }

  lemma AccountHidesSomethingIff(v: string)
    ensures MaskAccountNumber(v) != v <==> exists k :: 0 <= k < |v| && IsDigit(v[k]) && !AccountShows(v, k)
  {
    hide AccountShows, MaskAccountNumber;
    forall k | 0 <= k < |v|
      ensures |MaskAccountNumber(v)| == |v|
      ensures MaskAccountNumber(v)[k] == if IsDigit(v[k]) && !AccountShows(v, k) then '*' else v[k]
    {
      AccountHidesTheOtherDigits(v, k);
    }
    AccountIsGentle(v);
    if k :| 0 <= k < |v| && IsDigit(v[k]) && !AccountShows(v, k) {
      assert MaskAccountNumber(v)[k] != v[k];
    } else {
      assert MaskAccountNumber(v) == v;
    }
  }

  /** A digit of an account number stays readable iff the rule shows it and there is a digit it hides. */
  lemma AccountDigitIsShownIff(v: string, j: nat)
    requires j < |TrimSpace(v)| && IsDigit(TrimSpace(v)[j])
    ensures Leading(v) + j < |v| == |MaskValue(BankAccount, v)|
    ensures
      var core := TrimSpace(v);
      MaskValue(BankAccount, v)[Leading(v) + j] == v[Leading(v) + j] <==>
      AccountShows(core, j) && exists k :: 0 <= k < |core| && IsDigit(core[k]) && !AccountShows(core, k)
  {
    hide MaskValue, TrimSpace, AccountShows, MaskAccountNumber;
    var core := TrimSpace(v);
    assert MaskTrimmed(BankAccount, core) == MaskAccountNumber(core);
    hide MaskTrimmed;
    RuneIsShownIff(BankAccount, v, j);
    AccountHidesTheOtherDigits(core, j);
    AccountHidesSomethingIff(core);
  }

  lemma NameHidesEverySecondRune(v: string, j: nat)
    requires j < |TrimSpace(v)| && IsVisible(TrimSpace(v)[j]) && Rank(IsVisible, TrimSpace(v), j) % 2 == 1
    ensures Leading(v) + j < |v| == |MaskValue(PersonName, v)|
    ensures MaskValue(PersonName, v)[Leading(v) + j] == '*'
  {
    hide MaskValue, TrimSpace;
    HiddenStaysHidden(PersonName, v, j);
  }

  /** At most three runes of a mailbox name stay readable, and none of a short one. */
  lemma EmailShowsAtMostThreeLocalRunes(v: string, j: nat)
    requires var core := TrimSpace(v); j < FirstAt(core) && LooksLikeEmail(core) && (FirstAt(core) <= 4 || j >= 3)
    ensures Leading(v) + j < |v| == |MaskValue(EmailAddress, v)|
    ensures MaskValue(EmailAddress, v)[Leading(v) + j] == '*'
  {
    hide MaskValue, TrimSpace;
    HiddenStaysHidden(EmailAddress, v, j);
  }

  lemma IpAddressHidesTheThirdOctet(v: string, j: nat)
    requires var core := TrimSpace(v); ThirdOctet(core).Some? && ThirdOctet(core).value.Has(j)
    ensures j < |TrimSpace(v)| && Leading(v) + j < |v| == |MaskValue(IpAddress, v)|
    ensures MaskValue(IpAddress, v)[Leading(v) + j] == '*'
  {
    hide MaskValue, TrimSpace;
    HiddenStaysHidden(IpAddress, v, j);
  }

  /** With two or more tokens the first stays, the last is covered in full and the gaps are untouched. */
  lemma AddressKeepsTheFirstTokenOnly(v: string, i: nat)
    requires |Tokens(v)| >= 2 && i < |v|
    ensures |MaskAddress(v)| == |v|
    ensures Tokens(v)[0].Has(i) || IsSpace(v[i]) ==> MaskAddress(v)[i] == v[i]
    ensures Tokens(v)[|Tokens(v)| - 1].Has(i) ==> MaskAddress(v)[i] == '*'
  {
    var tokens := Tokens(v);
    var cutoff := Cutoff(v, tokens);
    TokenOrder(v, 0, cutoff);
    TokenOrder(v, cutoff, |tokens| - 1);
    if tokens[|tokens| - 1].Has(i) {
      TokenIsNotSpace(v, |tokens| - 1);
    }
  }

  /** The last token of an address is never readable, whatever its shape. */
  lemma AddressHidesTheLastToken(v: string, j: nat)
    requires Tokens(TrimSpace(v)) != [] && Tokens(TrimSpace(v))[|Tokens(TrimSpace(v))| - 1].Has(j)
    ensures j < |TrimSpace(v)| && Leading(v) + j < |v| == |MaskValue(Address, v)|
    ensures MaskValue(Address, v)[Leading(v) + j] == '*'
  {
    hide MaskValue, TrimSpace;
    var core := TrimSpace(v);
    TokenIsNotSpace(core, |Tokens(core)| - 1);
    HiddenStaysHidden(Address, v, j);
    if |Tokens(core)| >= 2 {
      AddressKeepsTheFirstTokenOnly(core, j);
    }
  }

  /** The token ends in a suffix of a Korean road, dong, eup, myeon or ri name. */
  predicate EndsInAUnit(v: string, token: Span)
    requires 0 < token.end <= |v|
  {
    var last := v[token.end - 1];
    last == '로' || last == '길' || last == '동' || last == '읍' || last == '면' || last == '리'
  }

  /** Token j ends in a unit and is the first to do so. */
  predicate FirstUnit(v: string, j: nat) {
    var tokens := Tokens(v);
    && j < |tokens| && 0 < tokens[j].end <= |v| && EndsInAUnit(v, tokens[j])
    && forall i | 0 <= i < j :: 0 < tokens[i].end <= |v| && !EndsInAUnit(v, tokens[i])
  }

  /** An address shows its tokens up to the first that ends in a unit, if that is not its last token; otherwise the
      first three of more than three; otherwise all but the last. */
  ghost predicate AddressShows(v: string, k: nat) {
    var n := |Tokens(v)|;
    if exists j: nat :: j + 1 < n && FirstUnit(v, j) then exists j: nat :: j + 1 < n && FirstUnit(v, j) && k <= j
    else if n > 3 then k < 3
    else k + 1 < n
  }

  lemma CutoffIsWhereItShows(v: string, k: nat)
    requires |Tokens(v)| >= 2
    ensures k < Cutoff(v, Tokens(v)) <==> AddressShows(v, k)
  {
    var tokens := Tokens(v);
    TokensAreExact(v);
    var first := FirstBoundary(v, tokens);
    hide Tokens, InSome, FirstBoundary;
    forall j: nat | j < |tokens|
      ensures 0 < tokens[j].end <= |v| && (EndsAtBoundary(v, tokens[j]) <==> EndsInAUnit(v, tokens[j]))
    {
    }
    hide EndsInAUnit, EndsAtBoundary;
    assert first < |tokens| ==> FirstUnit(v, first);
    assert forall j: nat :: FirstUnit(v, j) ==> j == first;
  }

  /** Position by position, with two or more tokens: a rune stays iff it is space or in a token the address shows. */
  lemma AddressHidesTheOtherTokens(v: string, k: nat, i: nat)
    requires |Tokens(v)| >= 2 && k < |Tokens(v)| && Tokens(v)[k].Has(i)
    ensures i < |v| == |MaskAddress(v)|
    ensures MaskAddress(v)[i] == if AddressShows(v, k) then v[i] else '*'
  {
    CutoffIsWhereItShows(v, k);
    TokenIsNotSpace(v, k);
    var cutoff := Cutoff(v, Tokens(v));
    TokenOrder(v, k, cutoff);
    TokenOrder(v, cutoff, k);
    hide Tokens, Cutoff, AddressShows;
  }

  /** Some rune of a token that the address does not show is there to be hidden. */
  ghost predicate HasHiddenToken(v: string) {
    exists k: nat, i: nat :: k < |Tokens(v)| && Tokens(v)[k].Has(i) && i < |v| && !AddressShows(v, k) && v[i] != '*'
  }

  lemma AddressHidesSomethingIff(v: string)
    requires |Tokens(v)| >= 2
    ensures MaskAddress(v) != v <==> HasHiddenToken(v)
  {
    TokensAreExact(v);
    hide Tokens, MaskAddress, AddressShows;
    if k: nat, i: nat :| k < |Tokens(v)| && Tokens(v)[k].Has(i) && i < |v| && !AddressShows(v, k) && v[i] != '*' {
      AddressHidesTheOtherTokens(v, k, i);
    } else {
      SpaceOfAnAddressStays(v);
      forall i | 0 <= i < |v|
        ensures MaskAddress(v)[i] == v[i]
      {
        if !IsSpace(v[i]) {
          assert InSome(Tokens(v), i);
          var k :| 0 <= k < |Tokens(v)| && Tokens(v)[k].Has(i);
          AddressHidesTheOtherTokens(v, k, i);
        }
      }
    }
  }

  lemma SpaceOfAnAddressStays(v: string)
    ensures |MaskAddress(v)| == |v|
    ensures forall i | 0 <= i < |v| && IsSpace(v[i]) && |Tokens(v)| >= 2 :: MaskAddress(v)[i] == v[i]
  {
    hide Tokens, Cutoff;
  }

  /** Through MaskValue a rune of an address stays readable iff the address shows its token and hides some rune. */
  lemma AddressRuneIsShownIff(v: string, k: nat, j: nat)
    requires |Tokens(TrimSpace(v))| >= 2 && k < |Tokens(TrimSpace(v))| && Tokens(TrimSpace(v))[k].Has(j)
    requires j < |TrimSpace(v)| && TrimSpace(v)[j] != '*'
    ensures Leading(v) + j < |v| == |MaskValue(Address, v)|
    ensures MaskValue(Address, v)[Leading(v) + j] == v[Leading(v) + j]
      <==> AddressShows(TrimSpace(v), k) && HasHiddenToken(TrimSpace(v))
  {
    hide MaskTrimmed, MaskValue, TrimSpace, MaskAddress, AddressShows, HasHiddenToken, Tokens;
    RuneOfATokenIsVisible(TrimSpace(v), k, j);
    RuneIsShownIff(Address, v, j);
    TrimmedRuneStaysIff(TrimSpace(v), k, j);
  }

  lemma RuneOfATokenIsVisible(v: string, k: nat, j: nat)
    requires k < |Tokens(v)| && Tokens(v)[k].Has(j)
    ensures j < |v| && IsVisible(v[j])
  {
    hide Tokens;
    TokenIsNotSpace(v, k);
  }

  lemma TrimmedRuneStaysIff(v: string, k: nat, j: nat)
    requires |Tokens(v)| >= 2 && k < |Tokens(v)| && Tokens(v)[k].Has(j) && j < |v| && v[j] != '*'
    ensures |MaskTrimmed(Address, v)| == |v|
    ensures MaskTrimmed(Address, v)[j] == v[j] && MaskTrimmed(Address, v) != v
      <==> AddressShows(v, k) && HasHiddenToken(v)
  {
    assert MaskTrimmed(Address, v) == MaskAddress(v);
    hide MaskTrimmed, MaskAddress, AddressShows, HasHiddenToken, Tokens;
    AddressHidesTheOtherTokens(v, k, j);
    AddressHidesSomethingIff(v);
  }

  // ----- blanks -----

  /** The blanks a rule overwrites: in a short passport number, or in the hidden part of a mailbox name. */
  ghost predicate OverwritesBlank(rule: Rule, core: string) {
    || StarsOverBlank(rule, core)
    || (rule == EmailAddress && LooksLikeEmail(core)
        && exists i :: 0 <= i < FirstAt(core) && IsBlank(core[i]) && (FirstAt(core) <= 4 || i >= 3))
  }

  lemma BlankSurvives(rule: Rule, core: string, i: nat)
    requires i < |core| && IsBlank(core[i]) && !OverwritesBlank(rule, core)
    ensures |MaskTrimmed(rule, core)| == |core| && MaskTrimmed(rule, core)[i] == core[i]
  {
    RulesAreGentle(rule, core);
    if rule != Passport && rule != EmailAddress {
      hide MaskTrimmed;
      assert Gentle(core, MaskTrimmed(rule, core));
    }
  }

  lemma BlankIsLost(rule: Rule, core: string) returns (i: nat)
    requires OverwritesBlank(rule, core)
    ensures i < |core| == |MaskTrimmed(rule, core)| && IsBlank(core[i]) && MaskTrimmed(rule, core)[i] == '*'
  {
    RulesKeepAlignment(rule, core);
    if rule == EmailAddress {
      i :| 0 <= i < FirstAt(core) && IsBlank(core[i]) && (FirstAt(core) <= 4 || i >= 3);
    } else {
      i :| 0 <= i < |core| && IsBlank(core[i]);
    }
  }

  /** Exactly when every blank of a trimmed value survives its rule. */
  lemma RuleKeepsBlanksIff(rule: Rule, core: string)
    ensures |MaskTrimmed(rule, core)| == |core|
    ensures (forall i | 0 <= i < |core| && IsBlank(core[i]) :: MaskTrimmed(rule, core)[i] == core[i])
      <==> !OverwritesBlank(rule, core)
  {
    RulesKeepAlignment(rule, core);
    hide MaskTrimmed;
    if OverwritesBlank(rule, core) {
      var i := BlankIsLost(rule, core);
    } else {
      forall i | 0 <= i < |core| && IsBlank(core[i])
        ensures MaskTrimmed(rule, core)[i] == core[i]
      {
        BlankSurvives(rule, core, i);
      }
    }
  }

  lemma FullMaskKeepsBlanks(rule: Rule, core: string)
    ensures |MaskCore(rule, core)| == |core|
    ensures (forall i | 0 <= i < |core| && IsBlank(core[i]) :: MaskCore(rule, core)[i] == core[i])
            <==> !OverwritesBlank(rule, core)
  {
    RuleKeepsBlanksIff(rule, core);
    RulesKeepAlignment(rule, core);
    hide MaskTrimmed, OverwritesBlank;
  }

  /** Every blank of a value, inside or around it, is still there in the masked value iff the rule overwrites none. */
  lemma BlanksSurviveIff(rule: Rule, v: string)
    ensures |MaskValue(rule, v)| == |v|
    ensures (forall i | 0 <= i < |v| && IsBlank(v[i]) :: MaskValue(rule, v)[i] == v[i])
            <==> !OverwritesBlank(rule, TrimSpace(v))
  {
    hide MaskTrimmed, MaskCore, MaskValue, TrimSpace, RestoreSurroundingSpace, OverwritesBlank;
    var lead, core := Leading(v), TrimSpace(v);
    TrimWindow(v);
    MaskValueIsAligned(rule, v);
    FullMaskKeepsBlanks(rule, core);
    forall j | 0 <= j < |core|
      ensures v[lead + j] == core[j] && MaskValue(rule, v)[lead + j] == MaskCore(rule, core)[j]
    {
      CoreAt(rule, v, j);
    }
    if forall i | 0 <= i < |v| && IsBlank(v[i]) :: MaskValue(rule, v)[i] == v[i] {
      forall j | 0 <= j < |core| && IsBlank(core[j])
        ensures MaskCore(rule, core)[j] == core[j]
      {
        assert IsBlank(v[lead + j]);
      }
    }
    if forall j | 0 <= j < |core| && IsBlank(core[j]) :: MaskCore(rule, core)[j] == core[j] {
      forall i | 0 <= i < |v| && IsBlank(v[i])
        ensures MaskValue(rule, v)[i] == v[i]
      {
        if lead <= i < lead + |core| {
          assert core[i - lead] == v[lead + (i - lead)];
        }
      }
    }
  }

  /** A blank can be overwritten, so the space of a value is not kept under every rule. */
  lemma APassportBlankIsLost()
    ensures MaskValue(Passport, "M 12") == "****"
  {
    assert Leading("M 12") == 0 && Trailing("M 12") == 0;
    assert TrimSpace("M 12") == "M 12";
    assert Stars(4) == "****";
    assert "M 12"[0] != "****"[0];
  }

  // ----- spans -----

  /** The positions where a masked value hides a rune of the original. */
  function HiddenMarks(original: string, masked: string): (marks: seq<bool>)
    requires |original| == |masked|
    ensures |marks| == |original|
  {
    seq(|original|, i requires 0 <= i < |original| => original[i] != masked[i] && masked[i] == '*')
  }

  function MaskedRuneSpans(original: string, masked: string): seq<Span> {
    if |original| != |masked| then [] else Runs(HiddenMarks(original, masked))
  }

  method ComputeMaskedRuneSpans(original: string, masked: string) returns (spans: seq<Span>)
    ensures spans == MaskedRuneSpans(original, masked)
  {
    spans := [];
    if |original| != |masked| {
      return;
    }
    var marks := HiddenMarks(original, masked);
    var start := -1;
    for index := 0 to |original|
      invariant -1 <= start < index
      invariant Scan(marks, index) == State(spans, if start == -1 then None else Some(start))
    {
      if original[index] != masked[index] && masked[index] == '*' {
        if start == -1 {
          start := index;
        }
        continue;
      }
      if start != -1 {
        spans := spans + [Span(start, index)];
        start := -1;
      }
    }
    if start != -1 {
      spans := spans + [Span(start, |original|)];
    }
  }

  ghost function Overwrite(original: string, spans: seq<Span>): string {
    seq(|original|, i requires 0 <= i < |original| => if InSome(spans, i) then '*' else original[i])
  }

  /** The spans of a masked value are sorted, separated and in range, and carry the whole mask. */
  lemma SpansRoundTrip(rule: Rule, v: string)
    ensures var masked := MaskValue(rule, v);
            var spans := MaskedRuneSpans(v, masked);
            && Separated(spans, |v|)
            && Overwrite(v, spans) == masked
            && (spans == [] <==> masked == v)
            && |masked| == |v|
            && Width(spans) == Marked(HiddenMarks(v, masked), |v|)
  {
    MaskValueIsAligned(rule, v);
    var masked := MaskValue(rule, v);
    var marks := HiddenMarks(v, masked);
    var spans := MaskedRuneSpans(v, masked);
    RunsAreExact(marks);
    assert forall i | 0 <= i < |v| :: marks[i] <==> InSome(spans, i);
    assert Overwrite(v, spans) == masked;
    if spans == [] {
      assert masked == v;
    }
    if spans != [] {
      assert spans[0].Has(spans[0].start);
      assert InSome(spans, spans[0].start);
      assert masked[spans[0].start] != v[spans[0].start];
    }
  }

  /** No other list of separated spans reproduces the mask. */
  lemma SpansAreTheOnlyOnes(rule: Rule, v: string, spans: seq<Span>)
    requires Separated(spans, |v|)
    requires forall i | 0 <= i < |v| :: InSome(spans, i) <==> i < |MaskValue(rule, v)| && MaskValue(rule, v)[i] != v[i]
    ensures spans == MaskedRuneSpans(v, MaskValue(rule, v))
  {
    MaskValueIsAligned(rule, v);
    var masked := MaskValue(rule, v);
    var marks := HiddenMarks(v, masked);
    RunsAreExact(marks);
    assert forall i | 0 <= i < |v| :: marks[i] <==> InSome(Runs(marks), i);
    SeparatedSpansAreUnique(spans, Runs(marks), |v|);
  }
}
