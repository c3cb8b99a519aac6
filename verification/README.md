# PII masker: a verified model

The service takes an identity document, asks an inference endpoint which personal data is printed where,
and hands the document back with those values drawn over. This project models the parts of it that carry its
promises and proves them for all inputs, all answers and all runs.

**Masking** (`Runes`, `RunScan`, `MaskPolicy`, `Masking`, `Readable`). Each value is masked rune by rune under one of
thirteen rules. The rule loops are methods, proved against specifications that speak about digit ranks, visible ranks
and tokens. `Readable` says once more, rule by rune and in words of its own, which runes can still be read. The
difference between a value and its masked form becomes spans.

**From answer to pixels** (`JsonTree`, `AnswerFormats`, `WalkOrders`, `Collectors`, `WalkAgreement`, `MissingBoxes`,
`Geometry`, `CutBoxes`, `Painter`, `Coverage`, `ExactCoverage`, `FailClosed`, `FailureCauses`, with the examples
`PlainFields`, `NulKeys`, `UnsafeBoxes` and `SampleHandout`). Two walks over the JSON answer collect field entries and
mask regions. `AnswerFormats` prints keys, values, pages and polygons in every accepted shape and proves that they are
read back. Members of an object are visited in any order: a walk reports the order it took as a ghost trail, and the
theorems hold for every trail. Spans become proportional parts of the reported boxes, which are placed on the page and
painted or stamped. Where a box belongs on the page is stated by proportions between reported size and page, not by the
scale that is applied. The end-to-end theorem composes all of it: what the decision hands out hides everything the
answer reported and leaves the rest alone. Geometry is exact real arithmetic.

**Jobs** (`JobDisk`, `JobStore`, `StoreLaws`, `JobProtocol`, `JobInvariant`, `JobPreserved`, `JobTheorems`,
`JobProgress`, `JobDrain`, `JobStart`, `JobSweep`, `JobRun`, `JobOffers`, `JobRecords`, `JobFaults`, `SyncSlots`).
`JobStore` is the store as a class over a memory map and a disk, with the faults of the file system as arguments.
`JobProtocol` is the whole asynchronous protocol as a step system: requests, runners, the slot channel, draining, the
retention sweep, and every file operation on its own, with a crash possible between any two. Its invariant holds in
every reachable state; ownership, crash-safe results, results offered after restarts, durable acceptance, drain safety,
absence of deadlock and termination follow. `JobFaults` shows that the step system itself rules no fault out. A write,
a start and a sweep of the step system refine the methods of the class. Time is an argument of each step, so no clock is
assumed to be monotone.

**Both together** (`JobHandout`). Each job receives one answer. If the masking steps of a run follow the decision on
the answers of their jobs, every file ever offered for download is safe to show for the answer of its own job.

**Downloads** (`Disposition`). The Content-Disposition printer, against a decoder for sections 3.2.1 of RFC 5987 and
4.3 of RFC 6266.

`Wrappers`, `FiniteSets` and `RealMath` hold optional values and the few facts about sets and products the proofs need.

## What turned out false, and exactly when it holds

- A sub-box need not be read in the units of the box it was cut from: cutting a pixel box one unit high can produce a
  part inside the unit square, which is then scaled as page fractions and painted elsewhere, so a hidden rune stays
  readable: `UnsafeBoxes.AnAnswerLeavesARuneReadable` gives the answer. A box keeps its units for all values and masks
  iff it is unit-safe (`Geometry.BoxesKeepUnitsIff`). What is in sight of a hidden rune is covered in all answers and on
  all pages iff the box is coverable: unit-safe, or out of sight, or of no height, or wholly below the unit square
  (`CutBoxes.AlwaysCoveredIff` for one drawn part, `ExactCoverage.AnswersHideTheBoxIff` from whole answers to pixels).
  This is the side condition of the coverage theorems.
- Blanks inside a value are overwritten by the passport rule and in the hidden part of an e-mail name; the exact
  condition is `Masking.BlanksSurviveIff`.
- A NUL inside a key can make two entities share a signature, and an unlocated field then goes unreported
  (`NulKeys.ANulInAKeyHidesAMissingBox`). Every entity is recorded iff the signatures are distinct
  (`WalkAgreement.EveryEntityIsRecordedIff`), for which keys without NUL are enough. For reporting, distinct signatures
  are only sufficient: in one order a key is reported iff some first sighting says so (`MissingBoxes.KeyIsReportedIff`),
  and in every order a walk can take iff a gap of it is forced (`MissingBoxes.ReportedInEveryWalkIff`).
- A placed rectangle lies on the page iff the page is at least 1 x 1 (`Geometry.PlacedRegionIsOnThePageIff`).
- The comment above `load` says nothing can still use what an orphan directory holds. A record that merely cannot be
  read at that moment counts as an orphan too, and its upload and result are removed. In every reachable state a start
  keeps a job with a whole record iff it can read the record (`JobTheorems.AStartKeepsAJobIff`, and for any disk
  `StoreLaws.AStartKeepsARecordIff`); the durability theorems name this exception.
- The comment above `acquireJobSlot` says draining is checked first so that a stop is not raced by a slot that frees
  up. A runner already waiting can still win a slot (`JobRun.ASlotCanBeTakenAfterTheDrain` gives a run): once the
  service is draining, a job can still take a slot iff its runner is waiting (`JobDrain.StillTakesASlotIffWaiting`).

## Model

| member | source | states |
|---|---|---|
| Masking.ComputeMaskedValue | internal/masking/policy.go:29-54 | The loops of every rule, the full-mask fallback and the outer space together compute the specification `MaskValue` |
| Masking.ComputeMaskedTrimmed | internal/masking/policy.go:56-85 | Each of the thirteen rule branches, as its loops compute it, equals its rank-based specification |
| Masking.MaskValueIsAligned | internal/masking/policy.go:29-54 | For every rule and value the result has the same rune count, every rune is kept or a star, and leading and trailing space is untouched |
| Masking.MaskValueReturnsTheInputIff | internal/masking/policy.go:37-50 | A non-blank value comes back unchanged iff all its runes are already stars and its rule overwrites no blank |
| Masking.RulesAreGentle | internal/masking/policy.go:56-85 | Stars replace non-blank runes only, under every rule but passport and e-mail |
| Masking.BlanksSurviveIff | internal/masking/policy.go:29-54 | Through MaskValue every blank of a value, inside or around it, survives iff it is not a passport or e-mail value whose overwritten part holds one |
| Masking.APassportBlankIsLost | internal/masking/policy.go:277-288 | A concrete value whose blank is overwritten, so "whitespace is kept" does not hold for every rule |
| MaskPolicy.CountDigits | internal/masking/policy.go:435-443 | The loop counts the digits of the value |
| MaskPolicy.MaskAllDigits | internal/masking/policy.go:412-423 | Hides the digits of every rank and nothing else |
| MaskPolicy.MaskDigitsAfter | internal/masking/policy.go:172-189 | Hides exactly the digits whose rank is at least the number kept |
| MaskPolicy.MaskKeepTrailingDigits | internal/masking/policy.go:191-214 | Hides exactly the digits before the trailing window, and all of them when there are too few |
| MaskPolicy.MaskLastDigits | internal/masking/policy.go:216-239 | Hides exactly the digits in the trailing window |
| MaskPolicy.MaskDigitsRange | internal/masking/policy.go:248-275 | Hides exactly the digits between the leading and the trailing window |
| MaskPolicy.MaskLicenseByLoops | internal/masking/policy.go:241-246 | Whichever branch is taken, the result hides the digits between the first four and the last two |
| MaskPolicy.LicenseGroupMatchesThePattern | internal/masking/policy.go:21 | The scan finds the six-digit group iff some split of the value has the shape of the pattern |
| MaskPolicy.LicenseBranchIsTheDigitRange | internal/masking/policy.go:241-246 | On every input the licence rule equals the digit range with four leading and two trailing digits |
| MaskPolicy.MaskAllVisible | internal/masking/policy.go:425-433 | The in-place loop stars exactly the visible runes |
| MaskPolicy.MaskTrailingRunes | internal/masking/policy.go:277-288 | The in-place loop stars exactly the last runes |
| MaskPolicy.MaskEveryEvenRune | internal/masking/policy.go:300-313 | The in-place loop stars every second visible rune, counted by visible rank |
| MaskPolicy.MaskAccountByLoops | internal/masking/policy.go:290-298 | Position by position: a rune is starred iff it is a digit other than those after the last separator, or without such a separator other than the last four of more than four |
| MaskPolicy.AccountHidesTheOtherDigits | internal/masking/policy.go:290-298 | The composed specification of the account rule hides exactly those digits |
| MaskPolicy.MaskEmailInPlace | internal/masking/policy.go:315-327 | Hides the mailbox name but for three runes, or all visible runes when the value is no address |
| MaskPolicy.LooksLikeEmailIff | internal/masking/policy.go:22 | The test holds iff the value splits into the two groups of the pattern |
| MaskPolicy.MaskIpByLoops | internal/masking/policy.go:329-335 | Position by position: a rune is starred iff it lies in the third octet, or the value is no dotted quad and the rune is visible |
| MaskPolicy.ThirdOctetMatchesThePattern | internal/masking/policy.go:23 | The scan finds an octet iff the value has the shape of the pattern, and it is the third group |
| MaskPolicy.SplitAddressTokens | internal/masking/policy.go:382-401 | The token loop yields the maximal runs of non-space runes |
| MaskPolicy.TokensAreExact | internal/masking/policy.go:382-401 | Tokens are sorted, separated and in range, and a rune is in one iff it is not space |
| MaskPolicy.GapIsSpace | internal/masking/policy.go:382-401 | Everything between neighbouring tokens, and outside the outermost ones, is space |
| MaskPolicy.TokensAndGapsRebuildTheValue | internal/masking/policy.go:337-401 | Gaps and tokens in turn, with the rest behind the last token, are the whole value |
| MaskPolicy.CoverTokens | internal/masking/policy.go:337-375 | Writing token by token and gap by gap hides exactly the non-space runes from the cutoff token on |
| MaskPolicy.MaskAddressByTokens | internal/masking/policy.go:337-375 | The whole address rule, boundary suffixes and the fallbacks included, computes its specification |
| Masking.AddressKeepsTheFirstTokenOnly | internal/masking/policy.go:337-375 | With two or more tokens the first token and all space stay and the last token is all stars |
| Masking.AddressHidesTheLastToken | internal/masking/policy.go:337-375 | Through the whole of MaskValue the last token is hidden, also when it is the only one |
| Masking.AddressHidesTheOtherTokens | internal/masking/policy.go:337-410 | Position by position, with two or more tokens: a rune of a token stays iff the token is not after the first that ends in one of six suffixes and is not the last; without such a one, iff it is among the first three of more than three, or is not the last |
| Masking.AddressRuneIsShownIff | internal/masking/policy.go:29-54 | Through MaskValue such a rune is readable iff its token is shown and some rune of another is there to be hidden |
| Masking.DigitRulesHideOneWindow | internal/masking/policy.go:172-275 | Every digit rule is one window over digit ranks |
| Masking.DigitIsShownIff | internal/masking/policy.go:29-54 | Through MaskValue a digit stays readable iff it lies outside the window of its rule and the window holds some digit |
| Masking.RegistrationNumberShowsSixOrNone | internal/masking/policy.go:58-65 | A registration number shows exactly its first six digits, and only if it has more than six; otherwise none |
| Masking.CardNumberShowsAtMostTheLastFour | internal/masking/policy.go:70-71 | A digit of a card number is readable iff it is one of the last four of more than four |
| Masking.PhoneNumberHidesTheLastFour | internal/masking/policy.go:66-69 | A digit of a phone number is readable iff four more digits follow it |
| Masking.LicenseShowsTheOuterDigits | internal/masking/policy.go:60-61 | A digit of a licence number is readable iff it is one of the first four or last two of more than six |
| Masking.NameHidesEverySecondRune | internal/masking/policy.go:74-75 | Every visible rune of odd rank in a name is a star in the result |
| Masking.EmailShowsAtMostThreeLocalRunes | internal/masking/policy.go:76-77 | Every rune of a mailbox name after the third, and each of a name of up to four, is a star in the result |
| Masking.IpAddressHidesTheThirdOctet | internal/masking/policy.go:78-79 | Every digit of the third octet is a star in the result |
| Masking.RuneIsShownIff | internal/masking/policy.go:29-54 | Under every rule a visible rune other than a star stays readable iff the rule leaves it and hides something else |
| Masking.PassportShowsIff | internal/masking/policy.go:62-63 | Through MaskValue a passport number shows a rune iff it lies before the last four and one of those is there to be hidden |
| Masking.AccountDigitIsShownIff | internal/masking/policy.go:72-73 | Through MaskValue a digit of an account number stays readable iff the rule shows it and there is a digit it hides |
| Readable.RuleHidesExactly | internal/masking/policy.go:56-85 | For each of the thirteen rules and every position of a trimmed value: a star exactly where the rule hides, stated by counts of digits and runes, dashes, at signs, dots and tokens |
| Readable.RuneIsSeenIff | internal/masking/policy.go:29-54 | Through MaskValue a rune is seen iff it is a star, or its rule does not hide it and finds something to hide, or the rule finds nothing and the rune is blank |
| Runes.TrimWindow | internal/masking/policy.go:147-155 | Where the trimmed text sits in the value, with nothing but space around it |
| Runes.ClassesAreExact | internal/masking/policy.go:435-447 | Digits, blanks and white space are exactly the listed code points |
| Masking.ComputeMaskedRuneSpans | internal/masking/policy.go:107-133 | The span loop computes the maximal runs of changed positions |
| Masking.SpansRoundTrip | internal/masking/policy.go:107-133 | For a masked value the spans are sorted, non-empty, separated and in range; overwriting the original on them gives the masked value; their widths add up to the hidden runes |
| Masking.SpansAreTheOnlyOnes | internal/masking/policy.go:107-133 | No other list of separated spans marks the same runes |
| RunScan.RunsAreExact | internal/masking/policy.go:107-133 | The scan behind spans and tokens yields separated runs that hold exactly the marked positions |
| RunScan.SeparatedSpansAreUnique | internal/masking/policy.go:107-133 | Separated spans are determined by the positions they hold |
| Geometry.CutIsMonotone | internal/masking/engine.go:206-242 | The proportional cuts of a box increase from its left to its right edge |
| Geometry.SubBoxHoldsTheCell | internal/masking/engine.go:206-242 | The sub-box of a span, hairline repair included, is proper and holds the cell of every rune in the span |
| Geometry.WidthIsConserved | internal/masking/engine.go:206-242 | Without hairline repair the sub-box widths sum to the reported width times hidden runes over all runes |
| Geometry.CellsDivideTheBox | internal/masking/engine.go:206-242 | The cell of rune i of n is a strip of full height whose edges divide the box in the ratios i : n - i and i + 1 : n - i - 1 |
| Geometry.UnitSafeBoxesKeepUnits | internal/masking/engine.go:544-547 | Every sub-box of a unit-safe box is read in the units of the box it was cut from |
| Geometry.BoxesKeepUnitsIff | internal/masking/engine.go:544-547 | A box keeps its units under every value and mask iff it is unit-safe |
| CutBoxes.CoverableBoxesAreCovered | internal/masking/engine.go:206-242 | Every drawn part of a coverable box covers what is in sight of each rune of its span |
| CutBoxes.OtherBoxesUncoverARune | internal/masking/engine.go:485-547 | Every other box has a one-rune cut that is drawn right of the first unit of some page while the cell of its rune is in sight within it |
| CutBoxes.AlwaysCoveredIff | internal/masking/engine.go:206-242 | For all spans, runes, reported sizes and pages: what is in sight of a rune is covered by every drawn part with it iff the box is coverable |
| Geometry.AnUnsafeBoxIsPaintedElsewhere | internal/masking/engine.go:485-547 | A concrete box whose one-rune cut is taken for page fractions and placed on other rows |
| Geometry.LandsOnIff | internal/masking/engine.go:496-505 | The area placement computes is the one in proportion, axis by axis: a share of the page for fractions, as reported size to page for pixels, the box itself without a size |
| Geometry.TheReportedPageFillsThePage | internal/masking/engine.go:501-503 | A reported page lands exactly on the page of the document |
| Geometry.PlacementIsExact | internal/masking/engine.go:485-547 | In terms of that area: fails for a page without size, else for unknown units more than a twentieth beyond the page or less than half a unit in sight, and otherwise places what is in sight, or one unit that holds it |
| Geometry.PlacedRegionCoversItsBox | internal/masking/engine.go:485-542 | A placed rectangle covers the scaled box as far as it is on the page and is at least one unit wide and high |
| Geometry.PlacedRegionIsOnThePageIff | internal/masking/engine.go:485-542 | The placed rectangle lies on the page iff the page is at least one unit wide and high |
| Geometry.PlacedSubBoxCoversTheRune | internal/masking/engine.go:206-242 | Composed with placement, a sub-box covers the page area of every rune in its span |
| Geometry.StampCoversTheFlippedBox | internal/masking/engine.go:637-644 | The stamp, flipped to a bottom-left origin and rounded up, covers the flipped rectangle to 0.005 point per side |
| JsonTree.AnyMemberFirst | internal/masking/engine.go:93-146 | The objects of a tree do not depend on which member is visited first |
| JsonTree.ContainsGeometryIff | internal/masking/engine.go:694-713 | The search succeeds iff some object of the tree has a geometry member |
| AnswerFormats.PolygonIsReadIff | internal/masking/engine.go:278-306 | Four points, each a pair or named x and y, or eight numbers are read as the polygon they write, and nothing else is |
| AnswerFormats.PolygonOfAnObjectIsRead | internal/masking/engine.go:308-379 | Every polygon is read as written under every accepted name and form, in the order of precedence of the names |
| AnswerFormats.RectangleOfAnObjectIsRead | internal/masking/engine.go:324-349 | A corner, a width and a height, under long or short names, are read as the four corners |
| AnswerFormats.PageIsRead | internal/masking/engine.go:820-827 | The page is the first number of at least 1 under one of five names, without its fraction |
| AnswerFormats.NoPageIsRead | internal/masking/engine.go:820-827 | Without such a number the page is 0 |
| AnswerFormats.BoxesAreRead | internal/masking/engine.go:249-276 | The boxes are those written under the first of fifteen names that is there and not null: one or a list, plain or as a string, in their order |
| AnswerFormats.CarriesCoordinatesIff | internal/masking/engine.go:802-813 | An object carries coordinates iff one of the fifteen names has a member that is not null |
| AnswerFormats.EntityIsRead | internal/masking/engine.go:780-800 | The key is the text under the first of eight names that has any, the value that under the first of nine |
| AnswerFormats.KeylessEntityIsRead | internal/masking/engine.go:93-100 | Without a key an object with a value is reported as generic iff it carries coordinates |
| AnswerFormats.NoValueNoEntity | internal/masking/engine.go:93-101 | Without a value nothing is reported |
| AnswerFormats.TextOfAList | internal/masking/engine.go:829-841 | The text of a list is that of its items that have any, joined by comma and blank |
| AnswerFormats.TextOfAMember | internal/masking/engine.go:842-848 | The text of an object is that under the first of four names that has any |
| AnswerFormats.AFieldIsReadBack | internal/masking/engine.go:154-194 | Round trip of a whole field: key, value and all its boxes with pages and polygons are read back, under whichever accepted names and forms |
| WalkOrders.WalkVisitsEachOnce | internal/masking/engine.go:93-146 | Every walk of a tree visits each of its objects exactly once |
| Collectors.RegionCollector.AddEntity | internal/masking/engine.go:154-194 | Appends exactly the regions of one object to the shared list |
| Collectors.RegionCollector.Visit | internal/masking/engine.go:154-204 | Takes some walk of the tree (an object before what it holds, members in any order, list items in order) and appends the regions of each object along it |
| Collectors.RegionCollector.VisitMembers | internal/masking/engine.go:154-204 | The same for the members of an object, taken in any order |
| Collectors.CollectMaskRegions | internal/masking/engine.go:148-152 | The region list is the concatenation of the regions of the objects along some walk of the tree |
| Collectors.FieldCollector.AddEntity | internal/masking/engine.go:93-135 | One sighting adds an entry, or sets the box mark of the entry with its signature |
| Collectors.FieldCollector.Visit | internal/masking/engine.go:93-146 | Takes some walk of the tree and folds the sightings along it into the seen map and the entries |
| Collectors.FieldCollector.VisitMembers | internal/masking/engine.go:93-146 | The same for the members of an object, taken in any order |
| Collectors.BuildFieldEntries | internal/masking/engine.go:52-67 | The entry list is the fold of the sightings along some walk of the tree |
| Collectors.FieldsMissingGeometry | internal/masking/engine.go:69-91 | The loop computes the list of missing keys |
| Collectors.MissingKeysAreExact | internal/masking/engine.go:69-91 | The list holds exactly the keys of offending entries, without repeats, in the order of first offence |
| WalkAgreement.AnObjectContributesIffLocated | internal/masking/engine.go:154-194 | An object adds regions iff it is an entity with at least one parsed box |
| WalkAgreement.RegionsDoNotDependOnTheOrder | internal/masking/engine.go:154-204 | Any two visiting orders yield the same regions, each as often |
| WalkAgreement.EntriesDescribeTheirTrail | internal/masking/engine.go:93-146 | After any walk: signatures are remembered iff sighted, each entry stems from a sighting, and is marked as boxed iff some sighting has a box |
| WalkAgreement.WalksAgreeOnBoxes | internal/masking/engine.go:93-204 | For any two orders: no region was collected iff no entry has a box |
| WalkAgreement.NoEntryIffNoEntity | internal/masking/engine.go:93-146 | The entry list is empty iff no object of the tree reports a key and a value |
| WalkAgreement.SignatureIsInjective | internal/masking/engine.go:102-110 | The joined signature tells key and value apart if the keys hold no NUL |
| WalkAgreement.KeysWithoutNulAreEnough | internal/masking/engine.go:102-110 | Keys without NUL make all signatures of a tree distinct |
| WalkAgreement.EveryEntityIsRecordedIff | internal/masking/engine.go:93-146 | Every entity of the tree has an entry of its own iff the signatures of the tree are distinct |
| WalkAgreement.EntriesAreTheEntities | internal/masking/engine.go:93-146 | The entries are the entities of the tree, each once, boxed iff some sighting of it has a box |
| WalkAgreement.EntriesDoNotDependOnTheOrder | internal/masking/engine.go:93-146 | Every (key, value, boxed) triple of one order occurs in every other order |
| WalkAgreement.SupportedIff | internal/masking/engine.go:69-91 | An entity counts as supported iff its key has one of the twelve named rules and its value is not blank |
| WalkAgreement.MissingGeometryIsExact | internal/masking/engine.go:69-91 | A key is reported missing iff it has a supported entity that no object of the tree locates |
| WalkAgreement.NothingMissingMeansEverythingDrawn | internal/masking/engine.go:69-204 | With nothing missing every supported entity has a located sighting, and that sighting adds regions |
| NulKeys.ANulInAKeyHidesAMissingBox | internal/masking/engine.go:102-110 | A concrete answer with the keys name and name-NUL-b, both under the name rule of the service, where an unlocated field is not reported missing, in every order |
| MissingBoxes.KeyIsReportedIff | internal/masking/engine.go:69-146 | For any tree and any one order, colliding signatures included: a key is reported iff it is that of the first sighting of a signature that no object locates, under a supported rule |
| MissingBoxes.EntryIsItsFirstSighting | internal/masking/engine.go:93-135 | Every entry says what the first sighting of its signature says: value as masked, rule, confidence, and page of the field or else of its first box |
| MissingBoxes.AloneMeansReported | internal/masking/engine.go:69-146 | A supported, unlocated entity that shares its signature with no other is reported in every order |
| MissingBoxes.ReportedInEveryWalkIff | internal/masking/engine.go:69-146 | A key is reported in every walk of the answer iff a gap of it is forced somewhere: at an object itself, by a set of members each of which forces one even after all the others, or by an item of a list after those before it |
| Painter.MaskImage | internal/masking/engine.go:549-581 | Places all regions before the first pixel is drawn, then paints; fails with the first placement error |
| Painter.PaintBuffer | internal/masking/engine.go:573-579 | After the loop a pixel is black iff some rectangle holds it, and otherwise the pixel of the source |
| Painter.FillRect | internal/masking/engine.go:576-579 | Blackens exactly the pixels of the rectangle that are on the buffer |
| Painter.RectHoldsTouchedPixels | internal/masking/engine.go:564-569 | Rounding outwards takes exactly the pixels the placed rectangle touches |
| Painter.TouchedPixelsAreBlack | internal/masking/engine.go:559-579 | Every pixel a placed region touches is black |
| Painter.OtherPixelsAreKept | internal/masking/engine.go:573-579 | Every pixel outside all rectangles keeps its colour |
| Painter.PictureDoesNotDependOnTheOrder | internal/masking/engine.go:549-581 | The picture, and whether there is one, depends on the set of regions only |
| Painter.StampPdf | internal/masking/engine.go:615-655 | One stamp per region on its page; refuses a missing page, an unplaceable region and an empty list |
| Painter.EveryRegionIsStamped | internal/masking/engine.go:624-650 | Each region has its stamp on its own page, of the right size and at the right offset |
| Coverage.HiddenRuneHasARegion | internal/masking/engine.go:154-242 | Every rune the masked value hides lies in a sub-box that became a region of the object's page |
| Coverage.WholeBoxHasARegion | internal/masking/engine.go:178-193 | Every box of a value with several boxes, or with no hidden run, became a region as it is |
| Coverage.RegionsOfACutBox | internal/masking/engine.go:154-242 | The regions of a cut box are exactly those of its maximal runs of hidden runes: their cells side by side, a hairline of pixels widened to one unit, on the page of the box |
| Coverage.RegionsOfUncutBoxes | internal/masking/engine.go:178-193 | Otherwise the regions are the boxes as reported, in order, each on its page |
| Coverage.MaskedImageHidesTheTree | internal/masking/engine.go:148-603 | When masking an image succeeds, for every object of the answer each pixel over what is in sight of a hidden rune of its cut box is black if the box is coverable, and every box that is not cut is black in full; where a box or rune lies is the area in proportion to it, axis by axis |
| UnsafeBoxes.AnAnswerLeavesARuneReadable | internal/masking/engine.go:148-603 | A concrete answer whose only field is masked in full and whose first rune keeps its pixel in every masked 100 x 100 image |
| ExactCoverage.AnswersHideTheBoxIff | internal/masking/engine.go:148-603 | From answers to pixels: over all answers, values, reported sizes and images, masking blackens what is in sight of every hidden rune of a cut box iff the box is coverable |
| Coverage.MaskedImageKeepsTheRest | internal/masking/engine.go:549-581 | Every pixel that no region of the answer reaches keeps its colour |
| Coverage.StampedPdfHidesTheTree | internal/masking/engine.go:615-661 | The same for the stamps of a PDF, on the page the box names, to 0.005 point |
| Coverage.StampedPdfKeepsTheRest | internal/masking/engine.go:615-661 | Every stamp is that of some region of the answer |
| FailClosed.Process | internal/service/service.go:552-645 | Runs both walks, the checks and the drawing; outcome and summary are those of some pair of walks, to which the theorems below apply |
| FailClosed.DecisionTree | internal/service/service.go:573-645 | Seen from its results: untouched iff empty and believable, unrecognized iff not believable, and on success the three "nothing masked" signs coincide |
| FailClosed.SchemaIsKnownIff | internal/service/service.go:713-727 | A schema is known iff the answer is an object with a member named fields, document, documents, groups or entities, and it is oac iff that has fields |
| FailureCauses.ImageFailsIff | internal/masking/engine.go:549-603 | An image fails for the upload iff that cannot be decoded or encoded or has no size, and for the answer iff some region has no place on it |
| FailureCauses.PdfFailsIff | internal/masking/engine.go:615-661 | A PDF fails for the upload iff it cannot be read or stamped or the first region without a place is on a page without size, and for the answer iff that region has another fault |
| FailureCauses.OutcomeIs | internal/service/service.go:597-645 | An answer that reports an entity is refused if it locates nothing, misses a box, has a region without a place or changes nothing; fails for the upload if drawing does; and else is handed out with its drawing |
| FailClosed.UnchangedMeansNothingReported | internal/service/service.go:552-645 | Without an error, zero applied regions, bytes equal to the upload and an empty summary are equivalent |
| FailClosed.HandedOutUntouchedIff | internal/service/service.go:576-634 | The upload is handed out untouched iff the answer lists fields, documents, groups or entities, no object is an entity and none carries coordinates |
| FailClosed.UnrecognizedIff | internal/service/service.go:576-596 | The answer is unrecognized iff it is no JSON, or reports nothing while it lists none of these or carries coordinates |
| FailClosed.SuccessMeansEverythingLocated | internal/service/service.go:602-612 | On success every supported entity has a located sighting whose regions were all among those drawn |
| FailClosed.SuccessPlacesEveryRegion | internal/service/service.go:614-645 | All or nothing: on success every region of every object of the answer has its place on the document, and the count is that of all regions |
| FailClosed.SuccessHidesTheAnswer | internal/service/service.go:614-645 | A document handed out with regions is the encoding of a picture, or of stamped pages, that hides every object of the answer and differs from the upload only by what is drawn for it |
| SampleHandout.ASampleIsHandedOut | internal/service/service.go:552-645 | A concrete library, answer and pair of walks that end in a document handed out with one region |
| FailClosed.ImageOutcomeDoesNotDependOnTheOrder | internal/service/service.go:552-645 | For an image all visiting orders lead to the same outcome |
| JobStore.JobStore.Open | internal/jobs/store.go:22-34 | There is a store iff its root can be made and listed, and then its memory and disk are the loaded ones |
| JobStore.JobStore.Create | internal/jobs/store.go:41-53 | Success puts the job in memory and its whole record on disk; failure leaves no entry and, removal permitting, no directory |
| JobStore.JobStore.Save | internal/jobs/store.go:55-60 | Memory always takes the record; the disk takes it whole or keeps the previous one |
| JobStore.JobStore.Get | internal/jobs/store.go:62-70 | Finds a job iff it is stored, under its own id |
| JobStore.JobStore.Persist | internal/jobs/store.go:241-263 | The file operations in order amount to one of the six outcomes of `Persisted`, and succeed iff nothing fails |
| JobStore.JobStore.DeleteExpired | internal/jobs/store.go:94-118 | Deletes and returns exactly the finished jobs updated before the cutoff whose directory could be removed; all other entries and directories stay |
| JobStore.JobStore.LoadDir | internal/jobs/store.go:166-199 | One directory is restored or removed |
| JobStore.JobStore.Load | internal/jobs/store.go:157-203 | For any order of the directories and any faults the result is the directory-wise specification; an unlistable root changes nothing and is reported |
| JobStore.AWriteReplacesOrLeavesTheRecord | internal/jobs/store.go:241-263 | A write replaces a record whole or leaves it, and leaves every other directory |
| StoreLaws.ReloadIsIdempotent | internal/jobs/store.go:157-203 | Loading the disk a load left gives the same memory, whatever could not be written or removed, if both starts can read the same files |
| StoreLaws.EntriesAreTheDirectoriesIff | internal/jobs/store.go:157-222 | After a load the entries are exactly the directories iff every orphan could be removed |
| StoreLaws.LoadKeepsTheTimestamps | internal/jobs/store.go:157-203 | A load keeps both timestamps and the files, and leaves no job unfinished |
| StoreLaws.RestartsDoNotPostponeDeletion | internal/jobs/store.go:140-156 | After any number of starts with any faults, failed reads included, every job shown is due for deletion exactly when its first record says |
| StoreLaws.RestartsShowTheSameJobs | internal/jobs/store.go:157-203 | Any number of starts that can read the same files show the same jobs |
| StoreLaws.ReloadedDir | internal/jobs/store.go:166-199 | What a directory is loaded as does not change when an earlier start with the same sight had loaded it |
| StoreLaws.SweptJobsStayGone | internal/jobs/store.go:94-118 | A swept job is not loaded again and every other job is loaded as before |
| StoreLaws.AWriteLosesNoJob | internal/jobs/store.go:224-263 | After a write that failed anywhere the next load finds the job iff it would have found it before |
| StoreLaws.AStartKeepsARecordIff | internal/jobs/store.go:209-213 | On any disk a start keeps a job with a whole record iff it can read the record; unread, the directory goes with all it holds iff it can be removed |
| StoreLaws.AnUnreadRecordIsRemovedWithItsUpload | internal/jobs/store.go:209-213 | A concrete start that loses an accepted job and its upload |
| JobPreserved.CreatorKeeps | internal/service/service.go:297-347 | Every step of CreateJob keeps the invariant, every failure included |
| JobPreserved.RunnerKeeps | internal/service/service.go:371-466 | Every step of a runner keeps the invariant |
| JobPreserved.DiskKeeps | internal/jobs/store.go:41-60 | Every single file operation under the lock keeps the invariant |
| JobPreserved.SweepKeeps | internal/jobs/store.go:94-118 | Looking at a job in a sweep keeps the invariant |
| JobPreserved.LoadKeeps | internal/jobs/store.go:166-199 | Loading a directory keeps the invariant |
| JobPreserved.CrashKeeps | internal/jobs/store.go:224-240 | A crash between any two file operations keeps the invariant |
| JobPreserved.ReachableKeeps | internal/service/service.go:297-466 | Every state of every run, with every interleaving, fault, crash and restart, satisfies the invariant |
| JobTheorems.UnfinishedIffOwned | internal/service/service.go:297-466 | A stored job is queued or running iff a registered runner before its last Save or a request inside CreateJob owns it, and never both |
| JobTheorems.OnlyCreateAndLoadAddJobs | internal/jobs/store.go:41-60 | No Save puts a job back into memory: an entry appears only by Create or by a start |
| JobTheorems.OnlyUploadsMakeDirectories | internal/jobs/store.go:128-138 | No write of a record or result makes a directory: one appears only with an upload |
| JobTheorems.RemovedJobsStayRemoved | internal/jobs/store.go:94-118 | In every run, restarts included, nothing brings a removed job back |
| JobTheorems.StatusMovesForward | internal/service/service.go:401-466 | Within a process a status goes queued, running, finished, or queued, failed; a finished record never changes |
| JobTheorems.StoredStatusMovesForward | internal/jobs/store.go:241-263 | The record on disk moves forward in the same way over crashes and restarts |
| JobTheorems.AProcessNeverGoesBack | internal/service/service.go:401-466 | In a whole run of one process a job is at the record shown earlier, beyond it, or gone for good |
| JobTheorems.OfferedResultsAreComplete | internal/service/service.go:446-465 | A result offered for download is exactly what masking produced for that job, never a part or a leftover |
| JobTheorems.CompletedJobsKeepTheirResult | internal/jobs/store.go:179-185 | A job shown as completed has its whole result on disk until its removal begins |
| JobTheorems.MaskingReadsTheWholeUpload | internal/service/service.go:401-446 | Masking works on exactly the uploaded bytes, and at most once per job |
| JobTheorems.RunnersFindTheirJob | internal/service/service.go:401-414 | The lookup of a runner never misses, and finds the queued job with its whole upload |
| JobTheorems.AcceptedJobsAreDurable | internal/jobs/store.go:41-53 | In every state an accepted job has its whole record on disk, and every process that is serving shows it, unless a sweep began to remove it or a start could not read it |
| JobTheorems.AStartKeepsAJobIff | internal/jobs/store.go:157-213 | In every reachable state a start shows a job with a whole record iff it can read it, and begins to remove it iff not |
| JobTheorems.AStartShowsTheRecord | internal/jobs/store.go:157-199 | A readable record is shown with its id and times, an unfinished one as failed by interruption, with the path of each file iff it is there and was listed, of the result only if completed |
| JobOffers.CompletedJobsAreOffered | internal/jobs/store.go:157-199 | In every run whose starts see the files of a job: unless a sweep began to remove it, shown as completed it is offered with what masking produced, and shown at all it knows its upload |
| JobOffers.ResultsStayOffered | internal/jobs/store.go:157-199 | A completion that has reached the disk is offered by this and every later process with the same record and bytes until a sweep |
| JobOffers.AFaultlessJobSurvivesARestart | internal/service/service.go:297-466 | An upload that meets no fault is offered completed, and still is after a crash and the start of another process |
| JobRecords.EveryRecordIsExplained | internal/service/service.go:388-466 | In every run each record in memory and on disk is explained by steps of the run: why it is queued, running, completed or failed, with which error, and when |
| JobFaults.NothingOutsideIsRuledOut | internal/service/service.go:152-221 | A crash, a sweep, a stop and a new request can come in every state they are meant for |
| JobFaults.EveryOperationCanFail | internal/service/service.go:297-466 | Every file operation of a request or runner can fail where it can succeed |
| JobFaults.EveryWriteCanFail | internal/jobs/store.go:241-263 | The writing of a record can fail at each of its operations |
| JobFaults.EveryAnswerIsPossible | internal/service/service.go:401-466 | A runner reads exactly the upload or nothing, and masking may return anything |
| JobFaults.EverySightIsPossible | internal/jobs/store.go:157-203 | A start takes the directories in any order and may see anything of them |
| JobTheorems.OnlyUnreadableRecordsAreLost | internal/jobs/store.go:209-213 | A job becomes unread in exactly the steps in which a start cannot read its whole record |
| JobTheorems.ReadableJobsAreLostToSweepsOnly | internal/jobs/store.go:41-53 | In any run whose starts can read the record, an accepted job stays on disk and is shown until a sweep begins to remove it |
| JobTheorems.OnlyExpiredJobsAreSwept | internal/jobs/store.go:94-118 | A sweep begins to remove only finished, expired jobs that nobody works on |
| JobTheorems.RecordsAreReplacedWhole | internal/jobs/store.go:224-263 | In every step a record file stays, is replaced whole by the record in memory, or goes with its directory |
| JobTheorems.WritesRefineTheStore | internal/jobs/store.go:241-263 | Operation by operation, a write ends as the one-piece write of the store class with the fault it met |
| JobTheorems.TokensAreTheHolders | internal/service/service.go:371-408 | The slot channel holds one token per runner between acquire and release, never more than its capacity |
| JobTheorems.AReleaseNeverBlocks | internal/service/service.go:408 | A runner that gives its slot back always finds a token |
| JobTheorems.AfterShutdownNothingRuns | internal/service/service.go:152-172 | Once Shutdown has returned nil no runner is live and only a request inside CreateJob holds an unfinished job |
| JobTheorems.NoRunnerAfterShutdown | internal/service/service.go:352-369 | After that no run of the process registers a runner again |
| JobDrain.NoNewWorkWhileDraining | internal/service/service.go:371-383 | While draining, a job, also one that arrives later, is masked only if its runner was already waiting for a slot or had one |
| JobDrain.AWaitingRunnerCanStillGetASlot | internal/service/service.go:371-383 | From every reachable serving state, whoever holds the lock and with all slots taken, some crash-free run gives a waiting runner a slot |
| JobDrain.StillTakesASlotIffWaiting | internal/service/service.go:371-383 | Once draining, some run of the process still takes a slot for a job iff its runner is waiting at that moment |
| JobRun.ASlotCanBeTakenAfterTheDrain | internal/service/service.go:371-383 | A run in which a waiting runner takes a slot after draining began |
| JobTheorems.HistoryIsKept | internal/service/service.go:438-444 | Over every run the time, upload and produced content of a job are fixed, and acceptance is final |
| JobTheorems.CreationTimeIsKept | internal/service/service.go:434-444 | Two lookups of a job, with any run and any restarts in between, show the same creation time |
| JobTheorems.RestartsKeepTheDeadline | internal/jobs/store.go:140-156 | However often starts crash and repeat, a job on disk is due for deletion exactly when its record says |
| JobStart.AStartIsOneLoad | internal/jobs/store.go:157-203 | A start taken one file operation at a time leaves the memory and disk of the class's Load, for the faults it met and any order |
| JobSweep.ASweepIsOneDeleteExpired | internal/jobs/store.go:94-118 | A sweep taken one file operation at a time, among any steps of requests and runners, leaves the memory of the class method DeleteExpired and of every expired directory what that leaves |
| JobProgress.SomebodyCanGoOn | internal/service/service.go:371-466 | No deadlock: in every live state that is not quiet some step of work is possible |
| JobProgress.WorkGetsLess | internal/service/service.go:401-466 | Every step of work, failed or not, decreases one measure of the whole service |
| JobProgress.WorkIsBounded | internal/service/service.go:401-466 | Whatever is scheduled, only so many steps of work follow each other without a new request |
| JobProgress.StuckMeansFinished | internal/service/service.go:401-466 | Where no work is possible every stored job is finished, so no job stays queued with nobody to finish it |
| JobProgress.EveryJobCanBeFinished | internal/service/service.go:401-466 | From every live state work alone leads to a state with every stored job finished |
| JobRun.AFaultlessJobCompletes | internal/service/service.go:297-466 | An upload that meets no fault ends completed: its masked content offered, dated by its request, nothing else changed |
| JobHandout.OfferedFilesAreSafeToShow | internal/service/service.go:440-465 | In every run whose masking steps follow the decision on the answers their jobs received, each file offered for download is safe to show for the answer of its own job: the upload itself iff that answer reports nothing, in a known listing and without coordinates, and otherwise a changed document that hides everything it reports |
| SyncSlots.NeverMoreThanTheSlots | internal/service/service.go:237-258 | In every run the tokens are the requests being masked, at most the capacity, and each can give its slot back |
| SyncSlots.ShedAtOnceIff | internal/service/service.go:237-246 | A request is shed at once iff all slots are in use and there is no queue, and masked at once iff one is free |
| SyncSlots.PlacesAreReachedIff | internal/service/service.go:237-258 | Exactly from where, with how many slots taken, a request can get to being masked, queued, shed, canceled or done |
| Disposition.StripDispositionUnsafeRunes | internal/httpapi/server.go:396-406 | The loop drops exactly the quotes, backslashes and control characters |
| Disposition.AsciiFilenameFallback | internal/httpapi/server.go:411-426 | The loop replaces runes beyond ASCII, and a name with nothing left by a generic one |
| Disposition.PercentEncodeFilename | internal/httpapi/server.go:431-445 | The loop computes the percent encoding of any octets |
| Disposition.OctetsAreWritten | internal/httpapi/server.go:431-458 | ASCII letters, digits and twelve marks stand for themselves; any other octet is a percent sign and two upper-case digits of its value |
| Disposition.AttachmentDisposition | internal/httpapi/server.go:381-392 | The header is the specified one for the name it offers |
| Disposition.FallbackIs | internal/httpapi/server.go:411-426 | The fallback keeps ASCII and shows an underscore for any other rune, and is document if nothing else is left |
| Disposition.HeaderIs | internal/httpapi/server.go:381-392 | The two headers, spelled out |
| Disposition.UnsafeRunesAre | internal/httpapi/server.go:396-406 | The runes dropped are the quote, the backslash and the control characters |
| Disposition.Utf8RoundTrip | internal/httpapi/server.go:431-445 | Decoding the octets of a text gives the text |
| Disposition.PercentRoundTrip | internal/httpapi/server.go:431-458 | Percent-decoding inverts the encoding of every octet string, which stays in the RFC 5987 grammar |
| Disposition.DispositionRoundTrip | internal/httpapi/server.go:381-392 | A client that prefers the extended parameter recovers the offered name, which is the file name iff that is non-empty and holds no unsafe rune |
| Disposition.HeaderIsClean | internal/httpapi/server.go:381-392 | For every file name the header is printable ASCII with exactly two quotes |
| Disposition.FallbackShowsTheNameIff | internal/httpapi/server.go:381-426 | The extended parameter is left out iff the name is ASCII and not just underscores |

## Left out

- Which rule a key selects: the substring table over Korean and English key names is a parameter, an arbitrary function from keys to rules, so every theorem holds for every table.
- ParsePayload and the unwrapping of envelopes: the payload is an arbitrary JSON tree. ExtractPageSizes: the reported page sizes are an arbitrary map.
- Validation of the upload, page counting and MIME normalization: the upload has been accepted and its kind of document is an argument.
- Image codecs, JPEG loss and pdfcpu: decoding, encoding, page sizes and stamping are arbitrary partial functions; the picture is the pixel grid before encoding, a PDF its page sizes and stamps.
- Floating-point rounding, NaN and infinity: coordinates are exact reals, and any rounding to the nearest printed two decimals is allowed for. The overflow of a page number beyond the machine integer is not modelled.
- Invalid UTF-8: a text is a sequence of Unicode scalar values.
- Confidence merging, rule display names, debug copies and the wording of errors; a failure carries its kind only.
- The upstream client, HTTP routing, multipart bodies, job listing and the history limit, configuration, and the retention interval: easy or plumbing. That no sweep runs when retention is disabled is not stated; a sweep takes an arbitrary cutoff.
- Real clocks, timers and UUIDs: times and fresh ids are arguments of steps. Power loss without fsync is outside the source's own claim.
- Shutdown running into its deadline changes nothing in the service and is not a step.
- JobProtocol is on values, not on an object with methods: goroutines and handlers are program counters, because their interleaving is the point. Aliasing of the record clones is therefore not modelled.
- The deep copy of a record is a value copy, and of its metadata only id, status, timestamps, error code and download URL are kept.
- JobStore.JobStore.Create: requires a non-empty job id, because the service always passes a fresh UUID; with an empty id the store would address its root directory.
- JobStore.JobStore.Save: requires a non-empty job id for the same reason.
- JobStore.JobStore.DeleteExpired: returns the deleted ids as a set; their sorted order is not stated.
- StoreLaws.ReloadIsIdempotent: assumes that both starts can read the same files; what a start keeps without that is StoreLaws.AStartKeepsARecordIff.
- StoreLaws.RestartsShowTheSameJobs: assumes the same of all starts.
- StoreLaws.ReloadedDir: assumes the same of two starts, for one directory.
- JobSweep.ASweepIsOneDeleteExpired: is about sweeps that run to their end, and says nothing about the directories of unexpired jobs, which their own requests and runners may be writing meanwhile.
- JobStart.AStartIsOneLoad: is about starts that are not cut short; starts that are, are covered by the invariant and by JobTheorems.RestartsKeepTheDeadline.
- JobProgress.EveryJobCanBeFinished: assumes that masking itself returns; the inference call has no bound in the model.
- Coverage.MaskedImageHidesTheTree: promises nothing for a cut box that is not coverable, for which the property is false by ExactCoverage.AnswersHideTheBoxIff.
- Coverage.StampedPdfHidesTheTree: promises nothing for a cut box that is not coverable either (CutBoxes.AlwaysCoveredIff), and speaks about stamps, not about how a viewer draws them.
- JobHandout.OfferedFilesAreSafeToShow: takes as given that a masking step returns what the decision hands out; that the step computes it is FailClosed.Process.
- FailClosed.Process: starts from an answer that arrived; a failed inference call returns its error before any of this.
- FailClosed.ImageOutcomeDoesNotDependOnTheOrder: is not stated for PDF, where the first unplaceable region decides which error is reported and the stamps keep the order of the walk.
