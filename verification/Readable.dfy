/** Rule by rule and position by position: which runes of a value a reader of the masked value still sees. */
module Readable {
  import opened Runes
  import opened RunScan
  import opened MaskPolicy
  import opened Masking

  /** The digits of a bank account number up to its last dash or blank, if anything follows that; otherwise all but the
      last four, or all of up to four. */
  ghost predicate AccountHides(v: string, j: nat)
    requires j < |v|
  {
    && IsDigit(v[j])
    && if exists k :: 0 <= k < |v| - 1 && IsLastDash(v, k) then exists k :: j <= k < |v| - 1 && IsLastDash(v, k)
       else Count(IsDigit, v) <= 4 || Rank(IsDigit, v, j) + 4 < Count(IsDigit, v)
  }

  predicate IsLastDash(v: string, k: int) {
    0 <= k < |v| && (v[k] == '-' || v[k] == ' ') && forall i | k < i < |v| :: v[i] != '-' && v[i] != ' '
  }

  /** The mailbox name ends at this at sign, and a domain on one line follows. */
  predicate IsMailbox(v: string, at: nat) {
    && 0 < at && at + 1 < |v| && v[at] == '@' && (forall i | 0 <= i < at :: v[i] != '@')
    && forall i | at < i < |v| :: v[i] != '\n'
  }

  /** The rune lies between the second and the third dot of a dotted quad. */
  ghost predicate InThirdOctet(v: string, j: nat) {
    exists a: nat, b: nat, c: nat :: QuadShape(v, a, b, c) && b < j < c
  }

  ghost predicate IsQuad(v: string) {
    exists a: nat, b: nat, c: nat :: QuadShape(v, a, b, c)
  }

  /** The rune is in a token that the address does not show; a single token is hidden. */
  ghost predicate AddressHides(v: string, j: nat)
    requires j < |v|
  {
    var tokens := Tokens(v);
    if |tokens| == 1 then IsVisible(v[j]) else exists k: nat :: k < |tokens| && tokens[k].Has(j) && !AddressShows(v, k)
  }

  /** What each rule hides of a trimmed value. */
  ghost predicate RuleHides(rule: Rule, v: string, j: nat)
    requires j < |v|
  {
    var digits, rank := Count(IsDigit, v), Rank(IsDigit, v, j);
    match rule
    case ResidentRegistration => IsDigit(v[j]) && rank >= 6
    case AlienRegistration => IsDigit(v[j]) && rank >= 6
    case DriverLicense => IsDigit(v[j]) && (digits <= 6 || (rank >= 4 && rank + 2 < digits))
    case Passport => |v| <= 4 || (j + 4 >= |v| && IsVisible(v[j]))
    case MobilePhone => IsDigit(v[j]) && rank + 4 >= digits
    case Telephone => IsDigit(v[j]) && rank + 4 >= digits
    case CreditCard => IsDigit(v[j]) && (digits <= 4 || rank + 4 < digits)
    case BankAccount => AccountHides(v, j)
    case PersonName => IsVisible(v[j]) && Rank(IsVisible, v, j) % 2 == 1
    case EmailAddress =>
      if exists at: nat :: IsMailbox(v, at) then exists at: nat :: IsMailbox(v, at) && j < at && (at <= 4 || j >= 3)
      else IsVisible(v[j])
    case IpAddress => if IsQuad(v) then InThirdOctet(v, j) else IsVisible(v[j])
    case Address => AddressHides(v, j)
    case Generic => IsVisible(v[j])
  }

  lemma LastDashIs(v: string, i: int)
    ensures IsLastDash(v, i) <==> 0 <= i == LastSeparator(v)
  {
    var k := LastSeparator(v);
    hide LastSeparator;
    assert k >= 0 ==> IsSeparator(v[k]);
  }

  lemma AccountHidesExactly(v: string, j: nat)
    requires j < |v|
    ensures |MaskAccountNumber(v)| == |v|
    ensures MaskAccountNumber(v)[j] == if AccountHides(v, j) then '*' else v[j]
  {
    AccountHidesTheOtherDigits(v, j);
    AccountHidesIff(v, j);
    hide MaskAccountNumber, AccountHides, AccountShows;
  }

  lemma AccountHidesIff(v: string, j: nat)
    requires j < |v|
    ensures AccountHides(v, j) <==> IsDigit(v[j]) && !AccountShows(v, j)
  {
    var k := LastSeparator(v);
    LastDashIs(v, k);
    hide LastSeparator, Rank, Count;
    if 0 <= k < |v| - 1 {
      assert IsLastDash(v, k);
    }
    hide IsLastDash;
    forall i | IsLastDash(v, i)
      ensures i == k
    {
      LastDashIs(v, i);
    }
  }

  lemma EmailHidesExactly(v: string, j: nat)
    requires j < |v|
    ensures |MaskEmail(v)| == |v|
    ensures MaskEmail(v)[j] == if RuleHides(EmailAddress, v, j) then '*' else v[j]
  {
    var at := FirstAt(v);
    assert forall i: nat :: IsMailbox(v, i) ==> i == at;
    assert LooksLikeEmail(v) <==> IsMailbox(v, at) by {
      if LooksLikeEmail(v) {
        forall i | at < i < |v|
          ensures v[i] != '\n'
        {
          assert v[i] == v[at + 1..][i - at - 1];
        }
      }
    }
  }

  lemma IpHidesExactly(v: string, j: nat)
    requires j < |v|
    ensures |MaskIpAddress(v)| == |v|
    ensures MaskIpAddress(v)[j] == if RuleHides(IpAddress, v, j) then '*' else v[j]
  {
    ThirdOctetMatchesThePattern(v);
    hide ThirdOctet, QuadShape;
  }

  lemma AddressHidesExactly(v: string, j: nat)
    requires j < |v|
    ensures |MaskAddress(v)| == |v|
    ensures MaskAddress(v)[j] == if AddressHides(v, j) then '*' else v[j]
  {
    TokensAreExact(v);
    var tokens := Tokens(v);
    if |tokens| >= 2 {
      SpaceOfAnAddressStays(v);
      if InSome(tokens, j) {
        var k :| 0 <= k < |tokens| && tokens[k].Has(j);
        TokensAreApart(tokens, |v|, k, j);
        hide Tokens, AddressShows;
        AddressHidesTheOtherTokens(v, k, j);
      }
    }
  }

  lemma TokensAreApart(tokens: seq<Span>, n: nat, k: nat, j: nat)
    requires Separated(tokens, n) && k < |tokens| && tokens[k].Has(j)
    ensures forall i: nat | i < |tokens| && tokens[i].Has(j) :: i == k
  {
  }

  /** Every rule hides exactly what it says, position by position. */
  lemma RuleHidesExactly(rule: Rule, v: string, j: nat)
    requires j < |v|
    ensures |MaskTrimmed(rule, v)| == |v|
    ensures MaskTrimmed(rule, v)[j] == if RuleHides(rule, v, j) then '*' else v[j]
  {
    RankMonotone(IsDigit, v, j, |v|);
    hide MaskAccountNumber, MaskEmail, MaskIpAddress, MaskAddress, MaskDriverLicense, AddressHides, AccountHides;
    match rule
    case DriverLicense => LicenseBranchIsTheDigitRange(v);
    case BankAccount => AccountHidesExactly(v, j);
    case EmailAddress => EmailHidesExactly(v, j);
    case IpAddress => IpHidesExactly(v, j);
    case Address => AddressHidesExactly(v, j);
    case _ =>
  }

  /** The rule finds something to hide in the value. */
  ghost predicate FindsSomething(rule: Rule, v: string) {
    exists k: nat :: k < |v| && v[k] != '*' && RuleHides(rule, v, k)
  }

  lemma FindsSomethingIff(rule: Rule, v: string)
    ensures MaskTrimmed(rule, v) != v <==> FindsSomething(rule, v)
  {
    RulesKeepAlignment(rule, v);
    hide MaskTrimmed, RuleHides;
    forall k: nat | k < |v|
      ensures MaskTrimmed(rule, v)[k] == if RuleHides(rule, v, k) then '*' else v[k]
    {
      RuleHidesExactly(rule, v, k);
    }
    if !FindsSomething(rule, v) {
      assert MaskTrimmed(rule, v) == v;
    }
  }

  /** Through MaskValue: a rune of the value is seen iff it is a star, or its rule does not hide it and finds something
      else to hide, or the rule finds nothing and the rune is blank. */
  lemma RuneIsSeenIff(rule: Rule, v: string, j: nat)
    requires j < |TrimSpace(v)|
    ensures Leading(v) + j < |v| == |MaskValue(rule, v)|
    ensures
      var core := TrimSpace(v);
      MaskValue(rule, v)[Leading(v) + j] == v[Leading(v) + j] <==>
        || core[j] == '*'
        || (FindsSomething(rule, core) && !RuleHides(rule, core, j))
        || (!FindsSomething(rule, core) && !IsVisible(core[j]))
  {
    var core := TrimSpace(v);
    CoreAt(rule, v, j);
    FindsSomethingIff(rule, core);
    RuleHidesExactly(rule, core, j);
    hide MaskTrimmed, MaskValue, TrimSpace, RuleHides, FindsSomething;
  }
}
