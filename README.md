# Banner editor: layering, templates and compliance audit

This project models the deterministic core of a retail banner editor in Dafny and proves properties of the model. The editor places text, image and shape elements on a canvas of one of three formats. It keeps them in a list whose z-indices decide what is drawn on top, and it builds retail assets from fixed recipes: value tiles, tags, a drinkaware lock-up and the Low Everyday Price (LEP) template. It audits a layout against the retailer's placement rules, starting from the report of a semantic oracle.

The model is split into modules that follow the program:

- `Types` (`types.dfy`): the data model of `types.ts`.
  - The closed `ElementType` and `ElementSubtype` unions.
  - `CreativeElement` with its optional style fields.
  - `CanvasFormat`, `CANVAS_FORMATS` and `ComplianceReport`.
  - The `find`/`findIndex` searches and `includes`.
- `Geometry` (`geometry.dfy`):
  - `isOverlapping`.
  - The centre distance and edge gap of the packshot rule, in exact integer arithmetic. Centres are doubled and distances squared, so `Math.hypot(...) < d` becomes a comparison of squares. The lemmas bridge back to the real-valued test.
- `Editor` (`editor.dfy`): the element-list handlers of `App.tsx`.
  - Update by id, delete by id, add with defaults and the top z-index, and the backdrop resize on a format switch.
  - These are pure functions on `seq<Element>`.
  - The class `Editor` holds the state cells (`elements`, `selectedId`, `format`), and each handler replaces them.
  - The sample state `INITIAL_ELEMENTS`.
- `Layers` (`layers.dfy`): `handleLayerOrder`.
  - The comparator's stacking order is a function, proved to be the only ascending permutation.
  - The method copies the elements into an `array` in that order, finds the selected element, swaps it in place with its neighbour unless that neighbour is the locked backdrop, and walks the array emitting the z-index updates.
  - Lemmas show:
    - which updates are emitted;
    - the state they produce once applied;
    - that the refusals change nothing;
    - that any number of moves keeps every locked backdrop at z 0 below everything else;
    - that a bring-forward followed by a send-back of the same element restores the stacking order.
- `Audit` (`audit.dfy`): the deterministic body of `handleComplianceCheck`.
  - The oracle is a function parameter.
  - Six rules append issues and subtract fixed penalties: protected-zone collision, story-format safe zones, minimum font size, packshot/CTA nearest element and 24-unit gap, drinkaware lock-up, and clubcard legal text.
  - The method does this with the source's loops and pushes; each rule is proved equal to a specification function.
  - The score is floored at 0, and the report is compliant exactly when no issue was found.
  - For each rule, lemmas state which issues it lists and when, how many it lists, and what they cost.
- `Templates` (`templates.dfy`): the asset builders of `components/Tools.tsx`.
  - Each builder is a list of `onAddElement`/`onDeleteElement` calls.
  - A recipe is run two ways: as the handlers are written, where each add replaces the list with the render-time snapshot plus one element, and one call after another.
  - The second is the evident intent (see Findings). `ApplyRecipe` drives the `Editor` class through it.

Notes on the modelling:

- Frames, font sizes and z-indices are unbounded integers. Absent optional fields are `Option`s, and every reader's default is explicit: `zIndex || 0`, `fontSize || 0`, `content || ''`. `locked` is a `bool` because every reader tests it for truthiness.
- The subtype tests of the audit (`subtype.includes('value-tile')`, `'cta'`, `'tag'`, `'drinkaware'`) are modelled as tables on the subtype enumeration. `Audit.ProtectedSubtypes` proves that they agree with the substring tests on the subtypes' spellings.
- The regular expressions of the audit are modelled as exact string predicates:
  - the alcohol words with ASCII case folding;
  - `Ends \d{2}/\d{2}`;
  - `Clubcard/app required`.
- The sort comparator of `handleLayerOrder` is a strict total order on positions, because ties in z are broken by list position. The sorted result is therefore the same for any correct sort algorithm (`Layers.AscendingUnique`).
- The labels of every value tile sit one z-index above the tile and overlap it. Labels have subtype `none`, so the collision rule flags each label against its own tile (`Templates.TileLabelsIntrude`). This includes the sample state's clubcard tile.
- Where the code and the system's written description differ, the model follows the code:
  - The overlap test counts rectangles whose edges touch as overlapping, because the strict comparisons fail on equality.
  - The oracle's fallback report suggests "Please check internet connection and Puter service." (services/geminiService.ts:135-140).
  - The safe-zone rule exempts every full-width image, a packshot included. The collision rule exempts only full-width images that are not packshots.
  - The collision rule fires only when both z-indices are truthy, so a protected element at z 0 or without a z-index is never intruded on.
  - The renumbering's `else if (newZ === 0)` branch cannot be taken: a non-backdrop position always gets `(index + 1) * 10 > 0` (`Layers.NewZ`). It is left out of the method.

## Model

| member | source | states |
|---|---|---|
| Types.SubtypeNamesDistinct | types.ts:4-16 | the twelve subtype spellings are pairwise distinct, so the enumeration is a faithful image of the string union |
| Types.CanvasFormatsTable | types.ts:58-62 | three formats with distinct ids: sq 1080x1080, story 1080x1920, landscape 1200x628 |
| Types.FindIndex | components/Tools.tsx:68 | `findIndex`: none iff no element satisfies the test; otherwise the first position that does |
| Types.Find | App.tsx:248 | `find`: none iff no element satisfies the test; otherwise a member that satisfies it |
| Types.FindFirst | App.tsx:248 | `find` returns the element at the first satisfying position |
| Types.IndexOfId | components/Tools.tsx:68 | the first position holding the id, none iff the id is absent |
| Types.ContainsPrefix | App.tsx:248 | `includes` holds for a prefix, e.g. `"bg-1".includes("bg")` |
| Types.NotContainsPair | App.tsx:248 | a string in which no two adjacent characters spell a pair of the pattern does not include it |
| Geometry.OverlapSymmetric | components/Tools.tsx:50-55 | the overlap test is symmetric |
| Geometry.OverlapIffSharedPoint | components/Tools.tsx:50-55 | for frames of non-negative size, `IsOverlapping` holds iff the closed rectangles share a point, so touching edges overlap |
| Geometry.Max3 | components/Tools.tsx:237-238 | `Math.max` of three values: an upper bound equal to one of them |
| Geometry.GapZeroIffOverlap | components/Tools.tsx:237-239 | the edge gap is 0 iff the CTA and the packshot overlap or touch |
| Geometry.GapSymmetric | components/Tools.tsx:237-238 | the gap does not depend on which frame is the CTA |
| Geometry.GapBelow24 | components/Tools.tsx:239-241 | `Math.hypot(xGap, yGap) < 24` iff `xGap^2 + yGap^2 < 576` |
| Geometry.CentreDistDoubled | components/Tools.tsx:222-227 | the integer doubled-centre distance is exactly four times the squared real centre distance |
| Geometry.CloserIffSmallerSquare | components/Tools.tsx:224-228 | an element is strictly closer to the CTA than the packshot iff its integer squared distance is smaller |
| Editor.Updated | App.tsx:116-118 | every element with the id is merged with the patch (`Merge`: each field the patch gives replaces the element's); every other element, the length and the order are unchanged |
| Editor.MergeIdempotent | App.tsx:117 | `Merge`: merging a patch twice is merging it once |
| Editor.UpdatedIdempotent | App.tsx:116-118 | repeating an update that does not rename the element changes nothing more |
| Editor.UpdatedKeepsIds | App.tsx:116-118 | an update without an id field keeps every id, so unique ids stay unique |
| Editor.Deleted | App.tsx:151-152 | the survivors are exactly the elements whose id differs |
| Editor.DeletedConcat | App.tsx:152 | deletion distributes over concatenation (an order-preserving filter) |
| Editor.DeletedSingle | App.tsx:152 | a single element is kept iff its id differs |
| Editor.DeletedAbsent | App.tsx:152 | deleting an absent id changes nothing |
| Editor.DeletedLength | App.tsx:152 | the length drops by the number of elements with that id |
| Editor.MaxZ | App.tsx:124 | `Math.max(0, ...zIndex or 0)`: non-negative, at least every z, and 0 or some element's z |
| Editor.NewElement | App.tsx:127-145 | id, kind and subtype as given; z above every existing z unless the config sets one, which is kept; locked iff the config says true; default frame 300x100 centred on the format; given frame values kept; text gets non-empty content |
| Editor.NewElementOnTop | App.tsx:124-142 | without a configured z the new z is `max + 10`, at least 10 above every existing z |
| Editor.NewElementDefaults | App.tsx:135-145 | a non-empty configured content is kept, otherwise text reads "New Element" and other kinds have none; colour, font size and weight default to "#000000", 48 and "400" unless configured; a z-index is always set; every other style field is the configured one (`NewStyle`) |
| Editor.AddKeepsUniqueIds | App.tsx:147 | appending an element with a fresh id keeps ids unique |
| Editor.ResizeOnlyBackdrop | App.tsx:248-249 | `ResizedForFormat`: the format switch resizes the first locked backdrop and every element sharing its id to the format, changes every other element in no way, and changes nothing when there is no backdrop |
| Editor.InitialElementsWellFormed | App.tsx:14-106 | the sample's ids are unique; the only z-0 element is the locked `bg-1`, which is also the only locked backdrop |
| Editor.LockedIdsWithoutBg | App.tsx:48-94 | the other locked sample ids do not contain "bg" |
| Editor.Editor.constructor | App.tsx:109-111 | initial state: the sample layout, no selection, the first format |
| Editor.Editor.UpdateElement | App.tsx:116-118 | the list becomes the updated list; selection and format are kept |
| Editor.Editor.AddElement | App.tsx:120-149 | the new element is appended, the old ones are kept, it is selected, and unique ids stay unique |
| Editor.Editor.DeleteElement | App.tsx:151-154 | the id is filtered out; the selection is cleared iff it was the deleted id |
| Editor.Editor.UpdateFormat | App.tsx:245-250 | the format is switched and the first locked backdrop is resized to it; the selection is kept |
| Layers.InsertAscending | components/Tools.tsx:61-66 | inserting a position into a comparator-ascending list keeps it ascending |
| Layers.SortPrefix | components/Tools.tsx:61-66 | the first n positions, ascending by the comparator, each exactly once |
| Layers.SortOrder | components/Tools.tsx:61-66 | the stacking order is a permutation of the positions, ascending by z (absent = 0), ties by list position |
| Layers.Stacked | components/Tools.tsx:61-66 | the sorted copy has the list's length |
| Layers.AscendingUnique | components/Tools.tsx:61-66 | two ascending permutations of the same positions are equal: the sort result is unique |
| Layers.BackdropsStackFirst | components/Tools.tsx:61-66 | under the layering invariant every locked backdrop stacks below every other element |
| Layers.PlanMove | components/Tools.tsx:58-74 | a move goes ahead only for a selected element found in the stack, with its neighbour in range in the chosen direction and not a locked backdrop |
| Layers.PlanOn | components/Tools.tsx:68-74 | the guards on the stacked list: target adjacent in the direction, in range, not a locked backdrop |
| Layers.PlanOnExact | components/Tools.tsx:68-74 | the guards let a move through iff the id is found and its neighbour in the direction is in range and not a locked backdrop, and the move then swaps exactly those two |
| Layers.PlanMoveExact | components/Tools.tsx:58-74 | no selection or an absent id: refused; otherwise the plan is the guards' decision on the stacked list, a swap with the neighbour whenever it passes them |
| Layers.SwapAt | components/Tools.tsx:76-78 | the two entries are exchanged and every other entry is kept |
| Layers.NewZ | components/Tools.tsx:81-83 | new z is 0 iff the element is a locked backdrop, otherwise the positive multiple `(index + 1) * 10` |
| Layers.SortedCopy | components/Tools.tsx:61-66 | a fresh array holding the elements in stacking order |
| Layers.FindPosition | components/Tools.tsx:68 | the first array position with the id, or the length iff absent |
| Layers.PlanOnArray | components/Tools.tsx:68-74 | the array guards decide exactly as `PlanOn` does |
| Layers.SwapInPlace | components/Tools.tsx:76-78 | the in-place swap through a temporary produces `SwapAt` of the old contents |
| Layers.EmitRenumbering | components/Tools.tsx:80-85 | the loop emits exactly the updates `Changes` describes |
| Layers.LayerOrder | components/Tools.tsx:57-86 | the method emits exactly `LayerUpdates`: nothing on a refusal, otherwise the renumbering of the swapped stack |
| Layers.ChangesExact | components/Tools.tsx:80-85 | `Changes`: each emitted update renumbers a position whose z changes, every such position is emitted, and with unique ids no id is emitted twice |
| Layers.ChangesSound | components/Tools.tsx:80-85 | every emitted update is the renumbering of a position whose z changes |
| Layers.ChangesComplete | components/Tools.tsx:84 | every position whose z changes is emitted |
| Layers.ChangesDistinct | components/Tools.tsx:84 | with unique element ids the updates name distinct ids |
| Layers.ApplyRestylesAt | components/Tools.tsx:84 | `ApplyRestyles`: applying updates with distinct ids gives each named element the update's style and leaves the others untouched |
| Layers.RestylesKeepIds | components/Tools.tsx:84 | style updates keep the length and every id |
| Layers.RestyleHit | components/Tools.tsx:84 | an element some update names ends with that update's style |
| Layers.RestyleMiss | components/Tools.tsx:84 | an element no update names is untouched |
| Layers.SwappedOrder | components/Tools.tsx:61-78 | the swapped stack as list positions: a permutation, and the swapped stack picks those elements |
| Layers.RestackResult | components/Tools.tsx:57-86 | after a move and its updates, every element keeps all its fields except that its z reads as the renumbered value of its new stacking position |
| Layers.RestackAlong | components/Tools.tsx:76-85 | the same for given swap positions |
| Layers.RestyledPosition | components/Tools.tsx:80-85 | the element at stacking position k reads as its renumbered z after the updates |
| Layers.RenumberedSits | components/Tools.tsx:81-83 | renumbering keeps the id and backdrop status and puts a backdrop at 0, anything else above 0 |
| Layers.RenumberedLayered | components/Tools.tsx:80-84 | a renumbered list keeps ids in place and satisfies the layering invariant |
| Layers.RefusedMovesChangeNothing | components/Tools.tsx:58-74 | no selection, an absent id, a target out of range or a locked-backdrop target: nothing is emitted |
| Layers.RefusedOn | components/Tools.tsx:69-74 | the guards refuse an out-of-range or locked-backdrop target |
| Layers.MovePreservesLayered | components/Tools.tsx:57-86 | one move keeps backdrops at z 0, everything else above 0, and ids unique |
| Layers.RepeatedMovesKeepBackdropBottom | components/Tools.tsx:57-86 | any sequence of moves keeps that invariant, so nothing is ever moved below a locked backdrop |
| Layers.FrontThenBackRestoresOrder | components/Tools.tsx:57-86 | under the layering invariant with unique ids, a bring-forward that goes ahead followed by a send-back of the same selection leaves the ids in the stacking order they started in |
| Layers.ForwardAndBack | components/Tools.tsx:57-86 | the round trip of an element that is not a locked backdrop: both moves swap it with the same neighbour |
| Layers.BackdropForwardAndBack | components/Tools.tsx:57-86 | the round trip of a locked backdrop: the renumbering puts it back below its neighbour and the send-back is refused |
| Layers.MoveSwapsNeighbours | components/Tools.tsx:57-86 | a move of an element that is not a locked backdrop swaps its id with its neighbour's in the stacking order, and keeps the invariant and unique ids |
| Layers.SwapRestacks | components/Tools.tsx:61-85 | after swapping two non-backdrops and renumbering, the new stacking order is the swapped stack, each element renumbered for its position |
| Layers.BackdropRestacks | components/Tools.tsx:61-85 | a locked backdrop brought forward past an ordinary element is renumbered to 0, so the stacking order of the ids is unchanged |
| Layers.BackdropsBelow | components/Tools.tsx:61-66 | under the invariant everything stacked below a locked backdrop is a locked backdrop, in list order |
| Layers.BackNotPast | components/Tools.tsx:68-74 | a locked backdrop with only backdrops below it cannot be sent back: nothing is emitted |
| Layers.SentBack | components/Tools.tsx:68-74 | an element directly above a non-backdrop is sent back by swapping the two |
| Layers.StackedUnique | components/Tools.tsx:61-66 | the stacked copy keeps ids unique |
| Layers.StackedAlong | components/Tools.tsx:61-66 | any comparator-ascending permutation of the positions is the stacking order |
| Layers.InitialElementsLayered | App.tsx:14-106 | the sample state satisfies the invariant with unique ids |
| Audit.TextElements | components/Tools.tsx:155 | the text elements, exactly, from the list |
| Audit.TextElementsConcat | components/Tools.tsx:155 | the text filter distributes over concatenation |
| Audit.TextContentConcat | components/Tools.tsx:156 | the contents of a concatenation are the contents of each part in turn; a single element contributes its content (absent = "") iff it is text |
| Audit.AlcoholTestExamples | components/Tools.tsx:159 | `MentionsAlcohol` has no word boundaries and ignores case: "Ginger biscuits" and "Craft BEER" both count |
| Audit.AlcoholTestNegatives | components/Tools.tsx:159 | copy with none of the words is not flagged as alcohol |
| Audit.DateTestExamples | components/Tools.tsx:270 | `HasEndsDate` ignores case and matches "Offer ENDS 31/12", but not a one-digit day |
| Audit.ValueTilePart | components/Tools.tsx:170 | "value-tile" occurs exactly in the three value-tile spellings |
| Audit.CtaPart | components/Tools.tsx:170 | "cta" occurs exactly in `cta-primary` |
| Audit.TagPart | components/Tools.tsx:170 | "tag" occurs exactly in the two tag spellings |
| Audit.DrinkawarePart | components/Tools.tsx:170 | "drinkaware" occurs exactly in `drinkaware` |
| Audit.ProtectedSubtypes | components/Tools.tsx:169-171 | the protected test holds iff the subtype includes value-tile, cta, tag or drinkaware; the CTA test iff it includes cta |
| Audit.Cost | components/Tools.tsx:182-279 | only the oracle's issues are free; every rule issue costs its rule's penalty |
| Audit.PenaltyAppend | components/Tools.tsx:164-279 | penalties add up over concatenation |
| Audit.PenaltyOfRuleIssues | components/Tools.tsx:164-285 | rule issues cost at least 5 each, and are free iff there are none |
| Audit.PenaltyUniform | components/Tools.tsx:182-279 | issues of one cost c cost c times their number |
| Audit.ProtectedOf | components/Tools.tsx:169-171 | the protected elements, exactly |
| Audit.OverlaysExact | components/Tools.tsx:178-185 | an issue naming a subtype is listed for one element iff it intrudes on a scanned protected element of that subtype; all are overlay issues |
| Audit.OverlaysCount | components/Tools.tsx:178-185 | one element raises one issue per protected element it intrudes on |
| Audit.CollisionsCount | components/Tools.tsx:173-186 | the scanned elements raise one issue per intruding pair |
| Audit.CollisionSound | components/Tools.tsx:173-186 | every collision issue comes from an intruding pair |
| Audit.CollisionComplete | components/Tools.tsx:173-186 | every intruding pair raises its issue |
| Audit.OverlayIn | components/Tools.tsx:178-185 | an intrusion is listed once the inner loop reaches the protected element |
| Audit.CollisionKinds | components/Tools.tsx:173-186 | the collision rule raises only overlay issues |
| Audit.CollisionRuleExact | components/Tools.tsx:169-186 | `Collisions`: an overlay issue is listed iff some non-exempt element intrudes on a protected element of that subtype; one issue per intruding pair, 20 each; silent iff there is no such pair |
| Audit.ElementZonesHas | components/Tools.tsx:190-200 | an element raises a top (bottom) issue iff it is not exempt and enters the top (bottom) band |
| Audit.ElementZonesCount | components/Tools.tsx:190-200 | an element raises at most one issue per band, and only band issues |
| Audit.TopZonesCount | components/Tools.tsx:190-196 | the scanned elements raise one top-band issue per top-band offender |
| Audit.BottomZonesCount | components/Tools.tsx:190-200 | the scanned elements raise one bottom-band issue per bottom-band offender |
| Audit.SafeZonesLength | components/Tools.tsx:190-200 | the loop's issues are all top- or bottom-band issues |
| Audit.SafeZonesBands | components/Tools.tsx:190-200 | the loop lists a top (bottom) issue iff some non-exempt element enters that band |
| Audit.SafeZonesCounts | components/Tools.tsx:190-200 | the loop lists one issue per offender in each band, and nothing else |
| Audit.SafeZonesPenalty | components/Tools.tsx:190-200 | each safe-zone issue costs 10 |
| Audit.TopZonesUpTo | components/Tools.tsx:190-196 | a top-band issue is listed iff some scanned element is a top offender |
| Audit.BottomZonesUpTo | components/Tools.tsx:190-200 | a bottom-band issue is listed iff some scanned element is a bottom offender |
| Audit.SafeZonesUpToKinds | components/Tools.tsx:190-200 | the rule raises only band issues |
| Audit.SafeZoneRuleExact | components/Tools.tsx:189-202 | `SafeZones`: only the story format has safe-zone issues; a top (bottom) issue iff a non-exempt element has y < 200 (reaches past height - 250); one per offending element in each band; 10 each |
| Audit.FontsUpToExact | components/Tools.tsx:205-210 | at most one issue per scanned text element; an issue carrying a size is listed iff a scanned text element of that size is below 20 |
| Audit.FontsCount | components/Tools.tsx:205-210 | the scanned text elements raise one issue per element below 20 |
| Audit.FontsMembers | components/Tools.tsx:205-210 | which font issues the rule lists, and that it is silent iff every text element is at least 20 |
| Audit.FontRuleExact | components/Tools.tsx:205-210 | `Fonts`: an issue carrying a size is listed iff some text element of that size (absent = 0) is below 20; one issue per such text element; silent iff all are at least 20 |
| Audit.FontRuleCost | components/Tools.tsx:205-210 | at most one issue per text element, 5 each |
| Audit.PackshotRuleCases | components/Tools.tsx:213-246 | `PackshotRule`: no CTA: silent; CTA and no packshot: exactly the missing-packshot issue, 10; with a packshot, never that issue and at most two |
| Audit.PackshotPairIssues | components/Tools.tsx:220-245 | with both found, at most two rule issues and no missing-packshot issue |
| Audit.PackshotPairExact | components/Tools.tsx:221-244 | with both found, a nearer-element issue iff an unlocked non-shape element other than the two has a strictly nearer centre; a gap issue iff the clearance is under 24; one issue for each check that fails, 15 each |
| Audit.PackshotPairSplit | components/Tools.tsx:221-244 | with both found, the rule lists the nearest-element check's issues, then the gap check's |
| Audit.GapIssueExact | components/Tools.tsx:236-244 | the gap check lists one narrow-gap issue iff the clearance is under 24, 15 points, and nothing else |
| Audit.NearestIssueExact | components/Tools.tsx:222-234 | the nearest-element check flags iff some contender is nearer, with exactly one issue then, 15 points |
| Audit.OverlappingCtaNarrowGap | components/Tools.tsx:236-244 | overlapping or touching CTA and packshot always give a gap issue with gap 0 |
| Audit.ScenarioGap | components/Tools.tsx:237-239 | the far scenario packshot clears the CTA (squared gap 80000) |
| Audit.ScenarioFinds | components/Tools.tsx:213-229 | in the three-element scenario the CTA, the packshot and the nearer text box are found |
| Audit.ScenarioContenders | components/Tools.tsx:222-229 | only the text box contends and it is nearer |
| Audit.NearestElementScenario | components/Tools.tsx:216-234 | a text box nearer the CTA than the packshot is flagged, alone |
| Audit.FarPackshotScenario | components/Tools.tsx:216-244 | without the text box nothing is flagged |
| Audit.AlcoholRuleCases | components/Tools.tsx:249-265 | `AlcoholRule`: no alcohol: silent; alcohol and no lock-up: exactly the missing lock-up, 30; with a lock-up, silent iff black or white and at least 20 high |
| Audit.AlcoholLockupChecks | components/Tools.tsx:254-264 | with alcohol and a lock-up, it is never reported missing; the colour is flagged iff it is neither black nor white, the height iff it is under 20, one issue per failed check, 10 each |
| Audit.TwoChecksExact | components/Tools.tsx:254-281 | two independent checks of equal cost: each issue is listed iff its check fails, nothing else is, one per failed check |
| Audit.AlcoholLockupKinds | components/Tools.tsx:254-264 | with a lock-up, only colour and height issues are listed |
| Audit.ClubcardRuleCases | components/Tools.tsx:268-281 | `ClubcardRule`: no clubcard tile: silent; with one, the missing date and the missing app line are each flagged iff no text has them, one issue per missing item, 15 each |
| Audit.ClubcardWithTile | components/Tools.tsx:268-281 | with a clubcard tile, each legal item is flagged iff missing, with one issue per missing item, 15 each |
| Audit.ClubcardKinds | components/Tools.tsx:268-281 | the rule lists only the missing date and the missing app line |
| Audit.ClubcardScenario | components/Tools.tsx:268-281 | a tile with only its own texts draws both legal issues, 30 |
| Audit.LegalLineHasDate | components/Tools.tsx:270 | the legal tag's text matches `Ends DD/MM` |
| Audit.LegalLineHasApp | components/Tools.tsx:271 | `HasAppRequired`: the legal tag's text matches `Clubcard/app required` |
| Audit.AuditedReport | components/Tools.tsx:162-286 | `Audited` of `Findings`: the oracle's issues come first and unchanged, followed by the rule issues in rule order; suggestions pass through; score non-negative, never above the oracle's, at least 5 lower per rule issue unless floored; compliant iff no issue at all |
| Audit.LastRulesAreRuleIssues | components/Tools.tsx:213-281 | rules D to F raise no oracle-style issue |
| Audit.PackshotRuleIssues | components/Tools.tsx:213-246 | the packshot rule raises no oracle-style issue |
| Audit.AlcoholRuleIssues | components/Tools.tsx:249-265 | the lock-up rule raises no oracle-style issue |
| Audit.FindingsAreRuleIssues | components/Tools.tsx:169-281 | no rule raises an oracle-style issue |
| Audit.FallbackNeverPasses | services/geminiService.ts:135-140 | with the fallback report the audit never passes and scores 0 |
| Audit.StoryTopBandScenario | components/Tools.tsx:189-200 | a story text element at y 50, height 100 draws exactly the top-band issue, 10 |
| Audit.AlcoholWithoutLockupScenario | components/Tools.tsx:249-253 | alcohol copy without a lock-up lists the missing lock-up and costs at least 30 |
| Audit.CollisionRule | components/Tools.tsx:169-186 | the nested loops push exactly the collision issues and subtract their penalty |
| Audit.ElementCollisions | components/Tools.tsx:173-186 | an exempt element returns early; any other is checked against every protected element |
| Audit.OverlayCheck | components/Tools.tsx:178-185 | the inner loop pushes exactly the element's intrusions, 20 each |
| Audit.SafeZoneRule | components/Tools.tsx:189-202 | the loop pushes exactly the safe-zone issues and subtracts their penalty |
| Audit.ElementZoneCheck | components/Tools.tsx:190-200 | one element's safe-zone issues with their cost |
| Audit.BandCheck | components/Tools.tsx:193-200 | the two band tests with their cost |
| Audit.FontRule | components/Tools.tsx:205-210 | the loop pushes exactly the font issues and subtracts their penalty |
| Audit.FontCheck | components/Tools.tsx:206-209 | one text element's font issue with its cost |
| Audit.PackshotCtaRule | components/Tools.tsx:213-246 | the branches push exactly the packshot-rule issues and subtract their penalty |
| Audit.AlcoholCheck | components/Tools.tsx:249-265 | the branches push exactly the lock-up issues and subtract their penalty |
| Audit.ClubcardCheck | components/Tools.tsx:268-281 | the branches push exactly the legal-text issues and subtract their penalty |
| Audit.ComplianceCheck | components/Tools.tsx:153-290 | the method's report is exactly `Audited` of the oracle's report for the text contents and the alcohol flag |
| Templates.ValueTileOps | components/Tools.tsx:306-352 | the clubcard tile is four adds, the others two |
| Templates.TagOps | components/Tools.tsx:354-362 | each tag is one add |
| Templates.DrinkawareOps | components/Tools.tsx:364-372 | the lock-up is one add |
| Templates.LepAdds | components/Tools.tsx:379-394 | the LEP template makes five adds |
| Templates.LepOpsShape | components/Tools.tsx:374-395 | the template removes something iff the canvas has a CTA; the removal comes first and names the first CTA; every other call is an add; six calls with a CTA, five without |
| Templates.SequentialAddsAppend | App.tsx:147 | adds run in order append one element each and keep the existing ones |
| Templates.SequentialAddsKeepAbsent | App.tsx:147-152 | adds with other ids never bring back a deleted id |
| Templates.BuildFixedZ | App.tsx:136-143 | an element added with an explicit z does not depend on the list |
| Templates.FixedZAddsAppend | App.tsx:136-147 | adds with explicit z, run in order, append exactly the elements built against any fixed list |
| Templates.BuiltAt | App.tsx:127-145 | the k-th built element is the k-th add built against the base list |
| Templates.AsWrittenKeepsLastAdd | App.tsx:147 | as written, a handler ending in an add leaves the snapshot plus that one element |
| Templates.SingleAddAgrees | App.tsx:147 | a single-add builder behaves the same either way |
| Templates.ValueTileAsWritten | components/Tools.tsx:306-352 | `RunAsWritten`: as written any value tile keeps the list and adds one text element, its last label, so the tile itself is lost; `RunSequential`: run in order it adds all its elements |
| Templates.LepTemplateCta | components/Tools.tsx:376-394 | as written the template keeps the CTA it deletes; run in order no element with the CTA's id remains |
| Templates.LepAsWrittenKeepsCta | components/Tools.tsx:376-394 | as written the CTA survives |
| Templates.LepSequentialRemovesCta | components/Tools.tsx:376-394 | run in order the CTA is gone |
| Templates.TileRun | components/Tools.tsx:306-352 | any value tile run in order appends the elements built against the starting list |
| Templates.TileSquare | components/Tools.tsx:308-319 | a tile's first element is a locked 250-unit shape of its variant's subtype, 40 units in from the bottom-right corner, at z `max + 50` |
| Templates.TileLabel | components/Tools.tsx:320-351 | every later element is a locked plain text label inside the tile's frame at z `max + 51` |
| Templates.ValueTilePlacement | components/Tools.tsx:306-352 | any value tile run in order: the existing list is kept; then a locked 250-unit square or roundel of the variant's subtype, 40 units in from the bottom-right corner, above every existing element; then its locked text labels at z `max + 51` |
| Templates.LabelOnTile | components/Tools.tsx:169-185 | a plain text caption inside a tile's frame and one z above it is not exempt, the tile is protected, and the caption intrudes on it |
| Templates.LabelIntrudes | components/Tools.tsx:320-351 | one label of any value tile intrudes on the tile |
| Templates.TileLabelsIntrude | components/Tools.tsx:306-352 | every label of any value tile overlaps the tile from one z higher, so the collision rule flags it |
| Templates.DrinkawarePassesRule | components/Tools.tsx:364-372 | the added lock-up satisfies the lock-up rule |
| Templates.LegalTagRun | components/Tools.tsx:360 | the legal tag appends one element |
| Templates.LegalTagLastText | components/Tools.tsx:360 | the legal line becomes the last text content |
| Templates.LegalTagSatisfiesClubcard | components/Tools.tsx:360 | with the legal tag the clubcard legal-text rule is silent |
| Templates.LegalTagSmallFont | components/Tools.tsx:360 | the legal tag's 14-unit font is flagged by the font rule |
| Templates.LegalTagInBottomBand | components/Tools.tsx:360 | on the story format the legal tag enters the bottom band |
| Templates.TextElementsAppend | components/Tools.tsx:155 | appending an element adds it to the text elements iff it is text |
| Templates.LepLayout | components/Tools.tsx:379-392 | the LEP backdrop is a locked z-0 full-format element, a locked backdrop; the logo sits 10 units right of the packshot without touching it |
| Templates.ApplyRecipe | App.tsx:120-154 | driving the editor's handlers call by call yields the in-order run and keeps the format |

## Left out

- The semantic compliance oracle, headline, strategy and background generators (services/geminiService.ts) are network calls. The oracle is a function parameter of `Audit.ComplianceCheck`; only its fallback report is a constant.
- The canvas (components/Canvas.tsx) is left out: drag with floating-point scale, viewport fitting, rendering.
- The rest of the tools panel is left out: tabs, file upload, the async flows `handleGenerateCopy`, `handleMagicBuild` and `handleGenerateBg`, and the `aiLoading`/report state.
- Image export (`handleDownloadImage`) is DOM and timer work and is left out.
- Id generation from the clock and a random number is a parameter (`newId`, `ids`), required to be fresh. The editor's retail-mode toggle is not modelled.
- Issue message text and `Math.round` of the gap in a message are not modelled. Issues are identified by the rule that raised them, with the fields the messages print.
- `RETAILER_RULES` is prompt text and is not modelled.
- The `else if (newZ === 0) newZ = 10` branch (components/Tools.tsx:83) is omitted because it is unreachable (`Layers.NewZ`).
- The selection state while a recipe runs is not modelled: `Templates.ApplyRecipe` states only the element list and the format.
- Editor.Patch: a field given as `undefined` in an update is modelled the same as an absent one, so a spread that writes `undefined` over a field is not captured.
- Editor.NewElement: `format.width / 2` is real division in the source; the model floors it, so for odd format sizes the default centre differs by half a unit. Every format in `CANVAS_FORMATS` is even, and the contract states the centre only for even sizes.
- Templates.LepAdds: the centre `cx`, `cy` is floored in the same way.
- React's batching of state updates is modelled as applying the queued updates in order once the handler returns (`Templates.RunAsWritten`); rendering between calls is not modelled.
- Layers.LayerOrder: the updates are returned as a list rather than sent to `onUpdateElement`; `Layers.ApplyRestyles` applies them in order.
- Layers.FrontThenBackRestoresOrder: states the order of ids, not the elements themselves, since each move renumbers z; and it needs the bring-forward to go ahead, because an element already at the top is refused going forward and is then moved down by the send-back.
- Audit.MentionsAlcohol and the other text tests fold only ASCII letters, which agrees with a case-insensitive regular expression without the unicode flag on these ASCII patterns.

## Findings

| source | as written | input that shows it | evidently intended | confidence | as-written member | corrected member |
|---|---|---|---|---|---|---|
| components/Tools.tsx:306-352 | each `onAddElement` of one handler builds `[...elements, newEl]` from the same render-time snapshot, so every add overwrites the previous one | `addValueTile('clubcard')` on any canvas: the list grows by one element (the "Was £4.50" label) instead of four; `addValueTile('new')` and `addValueTile('white')` keep only their text and lose the roundel | every element of the tile is added one after the other | not executed | Templates.ValueTileAsWritten | Templates.ValueTilePlacement |
| components/Tools.tsx:376-394 | the CTA deletion is queued as a filter, and the later adds replace the list with the snapshot plus one element, so the CTA survives and only the legal tag is added | `applyLEPTemplate()` on a canvas holding a `cta-primary` element | the CTA is removed and all five elements are added | not executed | Templates.LepAsWrittenKeepsCta | Templates.LepSequentialRemovesCta |
