/** The deterministic part of the compliance audit (`handleComplianceCheck`,
    components/Tools.tsx): starting from the semantic oracle's report, six geometric and
    legal rules each append issues and subtract a fixed penalty; the score is floored at
    0 and the report is compliant exactly when it lists no issue. The oracle itself is a
    parameter. */
module Audit {
  import opened Types
  import opened Geometry

  // ---------------------------------------------------------------------------------
  // The text tests.

  /** ASCII case folding. A case-insensitive regular expression without the `u` flag
      compares characters after upper-casing them and never maps a non-ASCII character
      onto an ASCII one, so against an ASCII lower-case pattern it agrees with this. */
  function Fold(c: char): char
  {
    if 'A' <= c <= 'Z' then (c as int - 'A' as int + 'a' as int) as char else c
  }

  /** The lower-case pattern `p` occurs in `s` at `i`, ignoring ASCII case. */
  predicate MatchesFoldedAt(s: string, p: string, i: int)
  {
    0 <= i <= |s| - |p| && forall j :: 0 <= j < |p| ==> Fold(s[i + j]) == p[j]
  }

  predicate ContainsFolded(s: string, p: string)
  {
    exists i | 0 <= i <= |s| - |p| :: MatchesFoldedAt(s, p, i)
  }

  const AlcoholWords: seq<string> := ["wine", "beer", "spirit", "alcohol", "vodka", "gin", "whisky"]

  /** `/wine|beer|spirit|alcohol|vodka|gin|whisky/i.test(t)`. */
  predicate MentionsAlcohol(t: string)
  {
    exists k | 0 <= k < |AlcoholWords| :: ContainsFolded(t, AlcoholWords[k])
  }

  predicate IsDigit(c: char)
  {
    '0' <= c <= '9'
  }

  /** `/Ends \d{2}\/\d{2}/i` matches at `i`. */
  predicate EndsDateAt(t: string, i: int)
  {
    0 <= i <= |t| - 10 && MatchesFoldedAt(t, "ends ", i) &&
    IsDigit(t[i + 5]) && IsDigit(t[i + 6]) && t[i + 7] == '/' && IsDigit(t[i + 8]) && IsDigit(t[i + 9])
  }

  predicate HasEndsDate(t: string)
  {
    exists i | 0 <= i <= |t| - 10 :: EndsDateAt(t, i)
  }

  /** `/Clubcard\/app required/i`. */
  predicate HasAppRequired(t: string)
  {
    ContainsFolded(t, "clubcard/app required")
  }

  /** The alcohol test has no word boundaries and ignores case, so "Ginger" counts. */
  lemma AlcoholTestExamples()
    ensures MentionsAlcohol("Ginger biscuits") && MentionsAlcohol("Craft BEER")
  {
    assert MatchesFoldedAt("Ginger biscuits", AlcoholWords[5], 0);
    assert MatchesFoldedAt("Craft BEER", AlcoholWords[1], 6);
  }

  /** The date test ignores case and wants two digits on each side of the slash. */
  lemma DateTestExamples()
    ensures HasEndsDate("Offer ENDS 31/12") && !HasEndsDate("Ends 3/12")
  {
    assert EndsDateAt("Offer ENDS 31/12", 6);
  }

  /** Copy with none of the words is not flagged. */
  lemma AlcoholTestNegatives()
    ensures !MentionsAlcohol("Fruit & nut mix")
  {
    var t := "Fruit & nut mix";
    forall k | 0 <= k < |AlcoholWords|
      ensures !ContainsFolded(t, AlcoholWords[k])
    {
      assert forall i :: 0 <= i < |t| ==> Fold(t[i]) != AlcoholWords[k][0];
      NoFirstLetter(t, AlcoholWords[k]);
    }
  }

  /** A pattern whose first letter occurs nowhere in `s`, in either case, does not occur. */
  lemma NoFirstLetter(s: string, p: string)
    requires |p| > 0 && forall i :: 0 <= i < |s| ==> Fold(s[i]) != p[0]
    ensures !ContainsFolded(s, p)
  {
    forall i | 0 <= i <= |s| - |p|
      ensures !MatchesFoldedAt(s, p, i)
    {
      assert Fold(s[i + 0]) != p[0];
    }
  }

  /** `elements.filter(e => e.type === 'text')`. */
  function TextElements(es: seq<Element>): (r: seq<Element>)
    ensures |r| <= |es|
    ensures forall e :: e in r <==> e in es && e.kind == Text
  {
    if es == [] then []
    else (if es[0].kind == Text then [es[0]] else []) + TextElements(es[1..])
  }

  /** `e.content || ''`. */
  function ContentOf(e: Element): string
  {
    match e.content
    case None => ""
    case Some(c) => c
  }

  /** The text contents handed to the oracle and to the text tests, in list order. */
  function TextContent(es: seq<Element>): (r: seq<string>)
    ensures |r| == |TextElements(es)|
    ensures forall k :: 0 <= k < |r| ==> r[k] == ContentOf(TextElements(es)[k])
  {
    var ts := TextElements(es);
    seq(|ts|, k requires 0 <= k < |ts| => ContentOf(ts[k]))
  }

  /** Filtering the text elements distributes over concatenation. */
  lemma {:induction false} TextElementsConcat(a: seq<Element>, b: seq<Element>)
    ensures TextElements(a + b) == TextElements(a) + TextElements(b)
  {
    if a == [] {
      assert a + b == b;
    } else {
      var head := if a[0].kind == Text then [a[0]] else [];
      assert (a + b)[0] == a[0] && (a + b)[1..] == a[1..] + b;
      TextElementsConcat(a[1..], b);
      calc {
        TextElements(a + b);
        head + TextElements(a[1..] + b);
        head + (TextElements(a[1..]) + TextElements(b));
        (head + TextElements(a[1..])) + TextElements(b);
      }
    }
  }

  /** The contents of two lists put together are the contents of the first followed by
      those of the second, and a single element contributes its content (absent = "")
      exactly when it is a text element. */
  lemma TextContentConcat(a: seq<Element>, b: seq<Element>)
    ensures TextContent(a + b) == TextContent(a) + TextContent(b)
    ensures forall e :: TextContent([e]) == if e.kind == Text then [ContentOf(e)] else []
  {
    TextElementsConcat(a, b);
    assert TextContent(a + b) == TextContent(a) + TextContent(b);
    forall e
      ensures TextContent([e]) == if e.kind == Text then [ContentOf(e)] else []
    {
      assert TextElements([e]) == (if e.kind == Text then [e] else []) + TextElements([]);
    }
  }

  predicate HasAlcohol(texts: seq<string>)
  {
    exists k | 0 <= k < |texts| :: MentionsAlcohol(texts[k])
  }

  predicate AnyEndsDate(texts: seq<string>)
  {
    exists k | 0 <= k < |texts| :: HasEndsDate(texts[k])
  }

  predicate AnyAppRequired(texts: seq<string>)
  {
    exists k | 0 <= k < |texts| :: HasAppRequired(texts[k])
  }

  // ---------------------------------------------------------------------------------
  // Subtype tests.

  /** `e.subtype?.includes(part)`. */
  predicate SubtypeHas(s: Option<Subtype>, part: string)
  {
    s.Some? && Contains(SubtypeName(s.value), part)
  }

  /** The subtypes whose names mention a value tile, a CTA, a tag or the drinkaware
      lock-up, listed; `ProtectedSubtypes` shows the list agrees with the four substring
      tests. */
  predicate ProtectedSubtype(s: Subtype)
  {
    s == ValueTileClubcard || s == ValueTileNew || s == ValueTileWhite || s == CtaPrimary ||
    s == TagExclusive || s == TagStandard || s == Drinkaware
  }

  /** A protected element. */
  predicate IsProtected(e: Element)
  {
    e.subtype.Some? && ProtectedSubtype(e.subtype.value)
  }

  /** A CTA: the one subtype whose name mentions `cta`. */
  predicate IsCta(e: Element)
  {
    e.subtype == Some(CtaPrimary)
  }

  predicate IsPackshot(e: Element)
  {
    e.subtype == Some(Packshot)
  }

  predicate IsDrinkaware(e: Element)
  {
    e.subtype == Some(Drinkaware)
  }

  predicate IsClubcardTile(e: Element)
  {
    e.subtype == Some(ValueTileClubcard)
  }

  /** Among the subtype names, `"value-tile"` occurs in exactly those of the three value tiles. */
  lemma ValueTilePart(s: Subtype)
    ensures SubtypeHas(Some(s), "value-tile") <==> s == ValueTileClubcard || s == ValueTileNew || s == ValueTileWhite
  {
    match s
    case ValueTileClubcard => ContainsPrefix("value-tile-clubcard", "value-tile");
    case ValueTileNew => ContainsPrefix("value-tile-new", "value-tile");
    case ValueTileWhite => ContainsPrefix("value-tile-white", "value-tile");
    case CtaPrimary => NotContainsPair("cta-primary", "value-tile", 0);
    case TagExclusive => NotContainsPair("tag-exclusive", "value-tile", 0);
    case TagStandard => NotContainsPair("tag-standard", "value-tile", 0);
    case Drinkaware => NotContainsPair("drinkaware", "value-tile", 0);
    case NoSubtype => NotContainsPair("none", "value-tile", 0);
    case LegalText => NotContainsPair("legal-text", "value-tile", 0);
    case Logo => NotContainsPair("logo", "value-tile", 0);
    case LepLogo => NotContainsPair("lep-logo", "value-tile", 0);
    case Packshot => NotContainsPair("packshot", "value-tile", 0);
  }

  /** Among the subtype names, `"cta"` occurs in exactly those of the primary CTA. */
  lemma CtaPart(s: Subtype)
    ensures SubtypeHas(Some(s), "cta") <==> s == CtaPrimary
  {
    match s
    case ValueTileClubcard => NotContainsPair("value-tile-clubcard", "cta", 0);
    case ValueTileNew => NotContainsPair("value-tile-new", "cta", 0);
    case ValueTileWhite => NotContainsPair("value-tile-white", "cta", 0);
    case CtaPrimary => ContainsPrefix("cta-primary", "cta");
    case TagExclusive => NotContainsPair("tag-exclusive", "cta", 0);
    case TagStandard => NotContainsPair("tag-standard", "cta", 0);
    case Drinkaware => NotContainsPair("drinkaware", "cta", 0);
    case NoSubtype => NotContainsPair("none", "cta", 0);
    case LegalText => NotContainsPair("legal-text", "cta", 0);
    case Logo => NotContainsPair("logo", "cta", 0);
    case LepLogo => NotContainsPair("lep-logo", "cta", 0);
    case Packshot => NotContainsPair("packshot", "cta", 0);
  }

  /** Among the subtype names, `"tag"` occurs in exactly those of the two tags. */
  lemma TagPart(s: Subtype)
    ensures SubtypeHas(Some(s), "tag") <==> s == TagExclusive || s == TagStandard
  {
    match s
    case ValueTileClubcard => NotContainsPair("value-tile-clubcard", "tag", 0);
    case ValueTileNew => NotContainsPair("value-tile-new", "tag", 0);
    case ValueTileWhite => NotContainsPair("value-tile-white", "tag", 0);
    case CtaPrimary => NotContainsPair("cta-primary", "tag", 1);
    case TagExclusive => ContainsPrefix("tag-exclusive", "tag");
    case TagStandard => ContainsPrefix("tag-standard", "tag");
    case Drinkaware => NotContainsPair("drinkaware", "tag", 0);
    case NoSubtype => NotContainsPair("none", "tag", 0);
    case LegalText => NotContainsPair("legal-text", "tag", 0);
    case Logo => NotContainsPair("logo", "tag", 0);
    case LepLogo => NotContainsPair("lep-logo", "tag", 0);
    case Packshot => NotContainsPair("packshot", "tag", 0);
  }

  /** Among the subtype names, `"drinkaware"` occurs in exactly those of the drinkaware lock-up. */
  lemma DrinkawarePart(s: Subtype)
    ensures SubtypeHas(Some(s), "drinkaware") <==> s == Drinkaware
  {
    match s
    case ValueTileClubcard => NotContainsPair("value-tile-clubcard", "drinkaware", 0);
    case ValueTileNew => NotContainsPair("value-tile-new", "drinkaware", 0);
    case ValueTileWhite => NotContainsPair("value-tile-white", "drinkaware", 0);
    case CtaPrimary => NotContainsPair("cta-primary", "drinkaware", 0);
    case TagExclusive => NotContainsPair("tag-exclusive", "drinkaware", 0);
    case TagStandard => NotContainsPair("tag-standard", "drinkaware", 0);
    case Drinkaware => ContainsPrefix("drinkaware", "drinkaware");
    case NoSubtype => NotContainsPair("none", "drinkaware", 0);
    case LegalText => NotContainsPair("legal-text", "drinkaware", 0);
    case Logo => NotContainsPair("logo", "drinkaware", 0);
    case LepLogo => NotContainsPair("lep-logo", "drinkaware", 0);
    case Packshot => NotContainsPair("packshot", "drinkaware", 0);
  }

  /** The protected filter of the source keeps an element exactly when its subtype name
      includes `value-tile`, `cta`, `tag` or `drinkaware`; the CTA lookup keeps an element
      exactly when it includes `cta`. */
  lemma ProtectedSubtypes(e: Element)
    ensures IsProtected(e) <==>
      SubtypeHas(e.subtype, "value-tile") || SubtypeHas(e.subtype, "cta") ||
      SubtypeHas(e.subtype, "tag") || SubtypeHas(e.subtype, "drinkaware")
    ensures IsCta(e) <==> SubtypeHas(e.subtype, "cta")
  {
    if e.subtype.Some? {
      ValueTilePart(e.subtype.value);
      CtaPart(e.subtype.value);
      TagPart(e.subtype.value);
      DrinkawarePart(e.subtype.value);
    }
  }

  // ---------------------------------------------------------------------------------
  // Penalties.

  /** The score each rule's issue costs; the oracle's own issues cost nothing here. */
  function Cost(x: Issue): (c: nat)
    ensures x.Semantic? <==> c == 0
  {
    match x
    case Semantic(_) => 0
    case Overlay(_) => 20
    case TopSafeZone => 10
    case BottomSafeZone => 10
    case SmallFont(_) => 5
    case NoPackshot => 10
    case PackshotNotNearest(_) => 15
    case NarrowGap(_, _) => 15
    case DrinkawareMissing => 30
    case DrinkawareColour => 10
    case DrinkawareHeight => 10
    case NoEndsDate => 15
    case NoAppRequired => 15
  }

  /** The total subtracted from the score for a list of issues. */
  function Penalty(xs: seq<Issue>): (p: nat)
  {
    if xs == [] then 0 else Penalty(xs[..|xs| - 1]) + Cost(xs[|xs| - 1])
  }

  lemma {:induction false} PenaltyAppend(a: seq<Issue>, b: seq<Issue>)
    ensures Penalty(a + b) == Penalty(a) + Penalty(b)
    decreases |b|
  {
    if b != [] {
      var b' := b[..|b| - 1];
      assert (a + b)[..|a + b| - 1] == a + b';
      assert (a + b)[|a + b| - 1] == b[|b| - 1];
      PenaltyAppend(a, b');
      assert Penalty(a + b) == Penalty(a + b') + Cost(b[|b| - 1]);
      assert Penalty(b) == Penalty(b') + Cost(b[|b| - 1]);
    } else {
      assert a + b == a;
    }
  }

  lemma PenaltyPush(a: seq<Issue>, x: Issue)
    ensures Penalty(a + [x]) == Penalty(a) + Cost(x)
  {
    assert (a + [x])[..|a|] == a;
  }

  /** A list of rule issues costs at least 5 per issue, so it is free exactly when it is
      empty. */
  lemma {:induction false} PenaltyOfRuleIssues(xs: seq<Issue>)
    requires forall x :: x in xs ==> !x.Semantic?
    ensures Penalty(xs) >= 5 * |xs|
    ensures Penalty(xs) == 0 <==> xs == []
    decreases |xs|
  {
    if xs != [] {
      PenaltyOfRuleIssues(xs[..|xs| - 1]);
      assert Cost(xs[|xs| - 1]) >= 5;
    }
  }

  /** A list whose issues all cost `c` costs `c` times its length. */
  lemma {:induction false} PenaltyUniform(xs: seq<Issue>, c: nat)
    requires forall x :: x in xs ==> Cost(x) == c
    ensures Penalty(xs) == c * |xs|
    decreases |xs|
  {
    if xs != [] {
      PenaltyUniform(xs[..|xs| - 1], c);
    }
  }

  // ---------------------------------------------------------------------------------
  // A. Protected-zone collisions.

  /** `elements.filter(...)` keeping the protected elements, in list order. */
  function ProtectedOf(es: seq<Element>): (r: seq<Element>)
    ensures |r| <= |es|
    ensures forall e :: e in r <==> e in es && IsProtected(e)
  {
    if es == [] then []
    else (if IsProtected(es[0]) then [es[0]] else []) + ProtectedOf(es[1..])
  }

  /** Elements the collision rule skips: protected ones, full-width shapes and full-width
      images other than a packshot. */
  predicate CollisionExempt(el: Element, fmt: CanvasFormat)
  {
    IsProtected(el) ||
    (el.kind == Shape && el.width == fmt.width) ||
    (el.kind == Image && el.subtype != Some(Packshot) && el.width == fmt.width)
  }

  /** A JavaScript-truthy z-index: present and non-zero. */
  predicate Truthy(z: Option<int>)
  {
    z.Some? && z.value != 0
  }

  /** `el` overlaps `prot` and sits above it, both z-indices being truthy. */
  predicate Intrudes(el: Element, prot: Element)
  {
    IsOverlapping(el, prot) && Truthy(el.style.zIndex) && Truthy(prot.style.zIndex) &&
    el.style.zIndex.value > prot.style.zIndex.value
  }

  /** The issues `el` raises against the first `n` protected elements. */
  function OverlaysUpTo(el: Element, prots: seq<Element>, n: nat): seq<Issue>
    requires n <= |prots|
  {
    if n == 0 then []
    else OverlaysUpTo(el, prots, n - 1) + (if Intrudes(el, prots[n - 1]) then [Overlay(prots[n - 1].subtype)] else [])
  }

  /** The issues the first `n` elements raise. */
  function CollisionsUpTo(es: seq<Element>, prots: seq<Element>, fmt: CanvasFormat, n: nat): seq<Issue>
    requires n <= |es|
  {
    if n == 0 then []
    else
      var own := if CollisionExempt(es[n - 1], fmt) then [] else OverlaysUpTo(es[n - 1], prots, |prots|);
      CollisionsUpTo(es, prots, fmt, n - 1) + own
  }

  function Collisions(es: seq<Element>, fmt: CanvasFormat): seq<Issue>
  {
    CollisionsUpTo(es, ProtectedOf(es), fmt, |es|)
  }

  /** A non-exempt element intruding on a protected one. */
  predicate IntrudingPair(es: seq<Element>, fmt: CanvasFormat, i: int, j: int)
  {
    0 <= i < |es| && 0 <= j < |es| && !CollisionExempt(es[i], fmt) && IsProtected(es[j]) &&
    Intrudes(es[i], es[j])
  }

  lemma {:induction false} OverlaysExact(el: Element, prots: seq<Element>, n: nat)
    requires n <= |prots|
    ensures forall x :: x in OverlaysUpTo(el, prots, n) <==>
      exists j :: 0 <= j < n && Intrudes(el, prots[j]) && x == Overlay(prots[j].subtype)
    ensures forall k :: 0 <= k < |OverlaysUpTo(el, prots, n)| ==> OverlaysUpTo(el, prots, n)[k].Overlay?
  {
    if n > 0 {
      OverlaysExact(el, prots, n - 1);
    }
  }

  /** One element raises one issue per protected element it intrudes on. */
  lemma {:induction false} OverlaysCount(el: Element, prots: seq<Element>, n: nat)
    requires n <= |prots|
    ensures |OverlaysUpTo(el, prots, n)| == |set j | 0 <= j < n && Intrudes(el, prots[j])|
  {
    if n > 0 {
      OverlaysCount(el, prots, n - 1);
      OverlaysLengthStep(el, prots, n);
      IntrudedStep(el, prots, n);
    }
  }

  lemma OverlaysLengthStep(el: Element, prots: seq<Element>, n: nat)
    requires 0 < n <= |prots|
    ensures |OverlaysUpTo(el, prots, n)| ==
      |OverlaysUpTo(el, prots, n - 1)| + (if Intrudes(el, prots[n - 1]) then 1 else 0)
  {
  }

  lemma IntrudedStep(el: Element, prots: seq<Element>, n: nat)
    requires 0 < n <= |prots|
    ensures |set j | 0 <= j < n && Intrudes(el, prots[j])| ==
      |set j | 0 <= j < n - 1 && Intrudes(el, prots[j])| + (if Intrudes(el, prots[n - 1]) then 1 else 0)
  {
    var test := j => 0 <= j < |prots| && Intrudes(el, prots[j]);
    PrefixStep(n - 1, test);
    assert (set j | 0 <= j < n - 1 && Intrudes(el, prots[j])) == Hits(n - 1, test);
    assert (set j | 0 <= j < n && Intrudes(el, prots[j])) == Hits(n, test);
  }

  /** Every issue of the first `n` elements comes from an intruding pair among them. */
  lemma {:induction false} CollisionSound(es: seq<Element>, fmt: CanvasFormat, n: nat, x: Issue)
    requires n <= |es| && x in CollisionsUpTo(es, ProtectedOf(es), fmt, n)
    ensures exists i, j :: 0 <= i < n && IntrudingPair(es, fmt, i, j) && x == Overlay(es[j].subtype)
  {
    var prots := ProtectedOf(es);
    var prev := CollisionsUpTo(es, prots, fmt, n - 1);
    if x in prev {
      CollisionSound(es, fmt, n - 1, x);
    } else {
      OverlaysExact(es[n - 1], prots, |prots|);
      var j :| 0 <= j < |prots| && Intrudes(es[n - 1], prots[j]) && x == Overlay(prots[j].subtype);
      assert prots[j] in es;
      var j' :| 0 <= j' < |es| && es[j'] == prots[j];
      assert IntrudingPair(es, fmt, n - 1, j');
    }
  }

  /** Every intruding pair whose intruder is among the first `n` elements raises its issue. */
  lemma {:induction false} CollisionComplete(es: seq<Element>, fmt: CanvasFormat, n: nat, i: int, j: int)
    requires n <= |es| && 0 <= i < n && IntrudingPair(es, fmt, i, j)
    ensures Overlay(es[j].subtype) in CollisionsUpTo(es, ProtectedOf(es), fmt, n)
  {
    var prots := ProtectedOf(es);
    if i < n - 1 {
      CollisionComplete(es, fmt, n - 1, i, j);
    } else {
      assert es[j] in prots;
      var j' :| 0 <= j' < |prots| && prots[j'] == es[j];
      OverlayIn(es[i], prots, |prots|, j');
      assert CollisionsUpTo(es, prots, fmt, n) ==
        CollisionsUpTo(es, prots, fmt, n - 1) + OverlaysUpTo(es[i], prots, |prots|);
    }
  }

  /** An intrusion on the `j`-th protected element is listed once the check reaches it. */
  lemma {:induction false} OverlayIn(el: Element, prots: seq<Element>, n: nat, j: nat)
    requires j < n <= |prots| && Intrudes(el, prots[j])
    ensures Overlay(prots[j].subtype) in OverlaysUpTo(el, prots, n)
  {
    if j < n - 1 {
      OverlayIn(el, prots, n - 1, j);
    }
  }

  /** The collision rule raises only `Overlay` issues. */
  lemma {:induction false} CollisionKinds(es: seq<Element>, prots: seq<Element>, fmt: CanvasFormat, n: nat)
    requires n <= |es|
    ensures forall x :: x in CollisionsUpTo(es, prots, fmt, n) ==> x.Overlay?
  {
    if n > 0 {
      CollisionKinds(es, prots, fmt, n - 1);
      OverlaysExact(es[n - 1], prots, |prots|);
    }
  }

  /** The collision rule lists one `Overlay` issue, naming the protected subtype, for each
      intruding pair and nothing else, at 20 points each; it is silent exactly when no
      non-exempt element sits over an overlapping protected one. */
  lemma CollisionRuleExact(es: seq<Element>, fmt: CanvasFormat)
    ensures forall x :: x in Collisions(es, fmt) <==>
      exists i, j :: IntrudingPair(es, fmt, i, j) && x == Overlay(es[j].subtype)
    ensures Collisions(es, fmt) == [] <==> forall i, j :: !IntrudingPair(es, fmt, i, j)
    ensures |Collisions(es, fmt)| ==
      |set i, j | 0 <= i < |es| && 0 <= j < |es| && IntrudingPair(es, fmt, i, j) :: (i, j)|
    ensures Penalty(Collisions(es, fmt)) == 20 * |Collisions(es, fmt)|
  {
    CollisionsCount(es, fmt, |es|);
    var c := Collisions(es, fmt);
    forall x | x in c
      ensures exists i, j :: IntrudingPair(es, fmt, i, j) && x == Overlay(es[j].subtype)
    {
      CollisionSound(es, fmt, |es|, x);
    }
    forall i, j | IntrudingPair(es, fmt, i, j)
      ensures Overlay(es[j].subtype) in c
    {
      CollisionComplete(es, fmt, |es|, i, j);
    }
    CollisionKinds(es, ProtectedOf(es), fmt, |es|);
    forall x | x in c
      ensures Cost(x) == 20
    {
    }
    PenaltyUniform(c, 20);
    if c != [] {
      assert c[0] in c;
    }
  }

  /** The positions below `n` that pass `test`. */
  ghost function Hits(n: int, test: int -> bool): set<int>
  {
    set j | 0 <= j < n && test(j)
  }

  /** Counting the positions below `n + 1` that pass a test. */
  lemma PrefixStep(n: nat, test: int -> bool)
    ensures |Hits(n + 1, test)| == |Hits(n, test)| + (if test(n) then 1 else 0)
  {
    var last := if test(n) then {n} else {};
    forall j
      ensures j in Hits(n + 1, test) <==> j in Hits(n, test) + last
    {
    }
    assert Hits(n + 1, test) == Hits(n, test) + last;
    assert Hits(n, test) * last == {};
  }

  ghost function PairOf(i: int, j: int): (int, int)
  {
    (i, j)
  }

  /** The pairs `(i, j)` for the positions `j` below `n` that pass `test`. */
  ghost function Row(i: int, n: int, test: int -> bool): set<(int, int)>
  {
    set j | 0 <= j < n && test(j) :: PairOf(i, j)
  }

  /** A row has one pair per position. */
  lemma {:induction false} RowCount(i: int, n: nat, test: int -> bool)
    ensures |Row(i, n, test)| == |Hits(n, test)|
  {
    if n > 0 {
      RowCount(i, n - 1, test);
      PrefixStep(n - 1, test);
      RowStep(i, n - 1, test);
    }
  }

  lemma RowStep(i: int, n: nat, test: int -> bool)
    ensures |Row(i, n + 1, test)| == |Row(i, n, test)| + (if test(n) then 1 else 0)
  {
    var last := if test(n) then {PairOf(i, n)} else {};
    forall q
      ensures q in Row(i, n + 1, test) <==> q in Row(i, n, test) + last
    {
    }
    assert Row(i, n + 1, test) == Row(i, n, test) + last;
    assert Row(i, n, test) * last == {};
  }

  /** The positions of `s` whose element passes `test`. */
  ghost function Positions(s: seq<Element>, test: Element -> bool): set<int>
  {
    set j | 0 <= j < |s| && test(s[j])
  }

  /** Counting positions over a list with one more element at the end. */
  lemma PositionsSnoc(s: seq<Element>, x: Element, test: Element -> bool)
    ensures |Positions(s + [x], test)| == |Positions(s, test)| + (if test(x) then 1 else 0)
  {
    forall j | 0 <= j < |s|
      ensures (s + [x])[j] == s[j]
    {
    }
    if test(x) {
      assert Positions(s + [x], test) == Positions(s, test) + {|s|};
    } else {
      assert Positions(s + [x], test) == Positions(s, test);
    }
  }

  /** Filtering a list with one more element at the end. */
  lemma {:induction false} ProtectedOfSnoc(s: seq<Element>, x: Element)
    ensures ProtectedOf(s + [x]) == ProtectedOf(s) + (if IsProtected(x) then [x] else [])
  {
    if s != [] {
      assert (s + [x])[1..] == s[1..] + [x];
      ProtectedOfSnoc(s[1..], x);
    }
  }

  /** The positions of the protected elements `el` intrudes on. */
  ghost function Intruded(el: Element, es: seq<Element>): set<int>
  {
    Positions(es, e => IsProtected(e) && Intrudes(el, e))
  }

  /** The test "position `j` holds a protected element `el` intrudes on". */
  ghost function IntrudedAt(el: Element, es: seq<Element>): int -> bool
  {
    j => 0 <= j < |es| && IsProtected(es[j]) && Intrudes(el, es[j])
  }

  /** The intruding pairs whose intruder is among the first `n` elements. */
  ghost function PairsUpTo(es: seq<Element>, fmt: CanvasFormat, n: int): set<(int, int)>
  {
    set i, j | 0 <= i < n && 0 <= j < |es| && IntrudingPair(es, fmt, i, j) :: (i, j)
  }

  /** Scanning the filtered protected list meets as many intruded elements as scanning
      the whole list for protected ones. */
  lemma {:induction false} ProtectedIntruded(el: Element, es: seq<Element>)
    ensures |Positions(ProtectedOf(es), e => Intrudes(el, e))| == |Intruded(el, es)|
  {
    if es != [] {
      var front := es[..|es| - 1];
      assert es == front + [es[|es| - 1]];
      ProtectedIntruded(el, front);
      ProtectedIntrudedStep(el, front, es[|es| - 1]);
    }
  }

  lemma ProtectedIntrudedStep(el: Element, front: seq<Element>, last: Element)
    requires |Positions(ProtectedOf(front), e => Intrudes(el, e))| == |Intruded(el, front)|
    ensures |Positions(ProtectedOf(front + [last]), e => Intrudes(el, e))| == |Intruded(el, front + [last])|
  {
    var p := ProtectedOf(front);
    ProtectedOfSnoc(front, last);
    PositionsSnoc(front, last, e => IsProtected(e) && Intrudes(el, e));
    if IsProtected(last) {
      assert ProtectedOf(front + [last]) == p + [last];
      PositionsSnoc(p, last, e => Intrudes(el, e));
    } else {
      assert ProtectedOf(front + [last]) == p;
    }
  }

  /** The first `n` elements raise one issue per intruding pair. */
  lemma {:induction false} CollisionsCount(es: seq<Element>, fmt: CanvasFormat, n: nat)
    requires n <= |es|
    ensures |CollisionsUpTo(es, ProtectedOf(es), fmt, n)| == |PairsUpTo(es, fmt, n)|
  {
    if n > 0 {
      var i := n - 1;
      CollisionsCount(es, fmt, i);
      CollisionsLengthStep(es, fmt, n);
      if CollisionExempt(es[i], fmt) {
        PairsStep(es, fmt, i, {});
      } else {
        ElementIntrusions(es[i], es);
        RowCount(i, |es|, IntrudedAt(es[i], es));
        PairsStep(es, fmt, i, Row(i, |es|, IntrudedAt(es[i], es)));
      }
    }
  }

  lemma CollisionsLengthStep(es: seq<Element>, fmt: CanvasFormat, n: nat)
    requires 0 < n <= |es|
    ensures var prots := ProtectedOf(es);
      |CollisionsUpTo(es, prots, fmt, n)| == |CollisionsUpTo(es, prots, fmt, n - 1)| +
        (if CollisionExempt(es[n - 1], fmt) then 0 else |OverlaysUpTo(es[n - 1], prots, |prots|)|)
  {
  }

  /** One element raises one issue per protected element of the list it intrudes on. */
  lemma ElementIntrusions(el: Element, es: seq<Element>)
    ensures |OverlaysUpTo(el, ProtectedOf(es), |ProtectedOf(es)|)| == |Hits(|es|, IntrudedAt(el, es))|
  {
    var prots := ProtectedOf(es);
    OverlaysCount(el, prots, |prots|);
    ProtectedIntruded(el, es);
    assert (set j | 0 <= j < |prots| && Intrudes(el, prots[j])) == Positions(prots, e => Intrudes(el, e));
    assert Hits(|es|, IntrudedAt(el, es)) == Intruded(el, es);
  }

  /** The pairs of the element at `i` are added to those of the elements before it. */
  lemma PairsStep(es: seq<Element>, fmt: CanvasFormat, i: nat, row: set<(int, int)>)
    requires i < |es|
    requires row == if CollisionExempt(es[i], fmt) then {} else Row(i, |es|, IntrudedAt(es[i], es))
    ensures |PairsUpTo(es, fmt, i + 1)| == |PairsUpTo(es, fmt, i)| + |row|
  {
    forall q | q in PairsUpTo(es, fmt, i + 1) && q.0 == i
      ensures q in row
    {
      assert q == PairOf(i, q.1);
    }
    assert PairsUpTo(es, fmt, i + 1) == PairsUpTo(es, fmt, i) + row;
    assert PairsUpTo(es, fmt, i) * row == {};
  }

  // ---------------------------------------------------------------------------------
  // B. Safe zones (story format only).

  /** Full-width shapes and images are skipped by the safe-zone rule. */
  predicate SafeZoneExempt(el: Element, fmt: CanvasFormat)
  {
    (el.kind == Shape || el.kind == Image) && el.width == fmt.width
  }

  predicate InTopBand(el: Element)
  {
    el.y < 200
  }

  predicate InBottomBand(el: Element, fmt: CanvasFormat)
  {
    el.y + el.height > fmt.height - 250
  }

  function ZoneIssues(el: Element, fmt: CanvasFormat): seq<Issue>
  {
    (if InTopBand(el) then [TopSafeZone] else []) + (if InBottomBand(el, fmt) then [BottomSafeZone] else [])
  }

  /** What one element contributes to rule B. */
  function ElementZones(el: Element, fmt: CanvasFormat): seq<Issue>
  {
    if SafeZoneExempt(el, fmt) then [] else ZoneIssues(el, fmt)
  }

  function SafeZonesUpTo(es: seq<Element>, fmt: CanvasFormat, n: nat): seq<Issue>
    requires n <= |es|
  {
    if n == 0 then [] else SafeZonesUpTo(es, fmt, n - 1) + ElementZones(es[n - 1], fmt)
  }

  function SafeZones(es: seq<Element>, fmt: CanvasFormat): seq<Issue>
  {
    if fmt.id == "story" then SafeZonesUpTo(es, fmt, |es|) else []
  }

  predicate TopOffender(el: Element, fmt: CanvasFormat)
  {
    !SafeZoneExempt(el, fmt) && InTopBand(el)
  }

  predicate BottomOffender(el: Element, fmt: CanvasFormat)
  {
    !SafeZoneExempt(el, fmt) && InBottomBand(el, fmt)
  }

  lemma ElementZonesHas(el: Element, fmt: CanvasFormat)
    ensures TopSafeZone in ElementZones(el, fmt) <==> TopOffender(el, fmt)
    ensures BottomSafeZone in ElementZones(el, fmt) <==> BottomOffender(el, fmt)
    ensures forall x :: x in ElementZones(el, fmt) ==> x == TopSafeZone || x == BottomSafeZone
  {
  }

  /** One element raises at most one issue per band. */
  lemma ElementZonesCount(el: Element, fmt: CanvasFormat)
    ensures multiset(ElementZones(el, fmt))[TopSafeZone] == if TopOffender(el, fmt) then 1 else 0
    ensures multiset(ElementZones(el, fmt))[BottomSafeZone] == if BottomOffender(el, fmt) then 1 else 0
    ensures |ElementZones(el, fmt)| ==
      multiset(ElementZones(el, fmt))[TopSafeZone] + multiset(ElementZones(el, fmt))[BottomSafeZone]
  {
  }

  lemma {:induction false} TopZonesUpTo(es: seq<Element>, fmt: CanvasFormat, n: nat)
    requires n <= |es|
    ensures TopSafeZone in SafeZonesUpTo(es, fmt, n) <==> exists i :: 0 <= i < n && TopOffender(es[i], fmt)
  {
    if n > 0 {
      var before, own := SafeZonesUpTo(es, fmt, n - 1), ElementZones(es[n - 1], fmt);
      TopZonesUpTo(es, fmt, n - 1);
      ElementZonesHas(es[n - 1], fmt);
      if TopSafeZone in SafeZonesUpTo(es, fmt, n) {
        if TopSafeZone in before {
          var i :| 0 <= i < n - 1 && TopOffender(es[i], fmt);
          assert 0 <= i < n && TopOffender(es[i], fmt);
        } else {
          assert TopOffender(es[n - 1], fmt);
        }
      }
      if exists i :: 0 <= i < n && TopOffender(es[i], fmt) {
        var i :| 0 <= i < n && TopOffender(es[i], fmt);
        if i < n - 1 {
          assert TopSafeZone in before;
        } else {
          assert TopSafeZone in own;
        }
      }
    }
  }

  lemma {:induction false} BottomZonesUpTo(es: seq<Element>, fmt: CanvasFormat, n: nat)
    requires n <= |es|
    ensures BottomSafeZone in SafeZonesUpTo(es, fmt, n) <==> exists i :: 0 <= i < n && BottomOffender(es[i], fmt)
  {
    if n > 0 {
      var before, own := SafeZonesUpTo(es, fmt, n - 1), ElementZones(es[n - 1], fmt);
      BottomZonesUpTo(es, fmt, n - 1);
      ElementZonesHas(es[n - 1], fmt);
      if BottomSafeZone in SafeZonesUpTo(es, fmt, n) {
        if BottomSafeZone in before {
          var i :| 0 <= i < n - 1 && BottomOffender(es[i], fmt);
          assert 0 <= i < n && BottomOffender(es[i], fmt);
        } else {
          assert BottomOffender(es[n - 1], fmt);
        }
      }
      if exists i :: 0 <= i < n && BottomOffender(es[i], fmt) {
        var i :| 0 <= i < n && BottomOffender(es[i], fmt);
        if i < n - 1 {
          assert BottomSafeZone in before;
        } else {
          assert BottomSafeZone in own;
        }
      }
    }
  }

  lemma {:induction false} SafeZonesUpToKinds(es: seq<Element>, fmt: CanvasFormat, n: nat)
    requires n <= |es|
    ensures forall x :: x in SafeZonesUpTo(es, fmt, n) ==> x == TopSafeZone || x == BottomSafeZone
  {
    if n > 0 {
      var before, own := SafeZonesUpTo(es, fmt, n - 1), ElementZones(es[n - 1], fmt);
      SafeZonesUpToKinds(es, fmt, n - 1);
      ElementZonesHas(es[n - 1], fmt);
      forall x | x in SafeZonesUpTo(es, fmt, n)
        ensures x == TopSafeZone || x == BottomSafeZone
      {
        if x !in before {
          assert x in own;
        }
      }
    }
  }

  /** The issue lists `f` raises for the first `n` elements, one after the other. */
  ghost function Flatten(es: seq<Element>, n: nat, f: Element -> seq<Issue>): seq<Issue>
    requires n <= |es|
  {
    if n == 0 then [] else Flatten(es, n - 1, f) + f(es[n - 1])
  }

  /** When `f` raises `x` once for each element satisfying `p` and never otherwise, the
      flattened list holds `x` once per such element. */
  lemma {:induction false} FlattenCount(es: seq<Element>, n: nat, f: Element -> seq<Issue>, x: Issue, p: Element -> bool)
    requires n <= |es|
    requires forall e :: multiset(f(e))[x] == if p(e) then 1 else 0
    ensures multiset(Flatten(es, n, f))[x] == |Hits(n, k => 0 <= k < |es| && p(es[k]))|
  {
    if n > 0 {
      FlattenCount(es, n - 1, f, x, p);
      PrefixStep(n - 1, k => 0 <= k < |es| && p(es[k]));
      assert multiset(Flatten(es, n, f)) == multiset(Flatten(es, n - 1, f)) + multiset(f(es[n - 1]));
    }
  }

  /** When every list `f` raises holds only `x`s and `y`s, so does the flattened one. */
  lemma {:induction false} FlattenLength(es: seq<Element>, n: nat, f: Element -> seq<Issue>, x: Issue, y: Issue)
    requires n <= |es|
    requires forall e :: |f(e)| == multiset(f(e))[x] + multiset(f(e))[y]
    ensures |Flatten(es, n, f)| == multiset(Flatten(es, n, f))[x] + multiset(Flatten(es, n, f))[y]
  {
    if n > 0 {
      FlattenLength(es, n - 1, f, x, y);
      assert multiset(Flatten(es, n, f)) == multiset(Flatten(es, n - 1, f)) + multiset(f(es[n - 1]));
    }
  }

  /** When `f` raises one issue for each element satisfying `p` and none otherwise, the
      flattened list has one issue per such element. */
  lemma {:induction false} FlattenSize(es: seq<Element>, n: nat, f: Element -> seq<Issue>, p: Element -> bool)
    requires n <= |es|
    requires forall e :: |f(e)| == if p(e) then 1 else 0
    ensures |Flatten(es, n, f)| == |Hits(n, k => 0 <= k < |es| && p(es[k]))|
  {
    if n > 0 {
      FlattenSize(es, n - 1, f, p);
      PrefixStep(n - 1, k => 0 <= k < |es| && p(es[k]));
    }
  }

  /** The rule's loop flattens the per-element band issues. */
  lemma {:induction false} SafeZonesFlatten(es: seq<Element>, fmt: CanvasFormat, n: nat)
    requires n <= |es|
    ensures SafeZonesUpTo(es, fmt, n) == Flatten(es, n, e => ElementZones(e, fmt))
  {
    if n > 0 {
      SafeZonesFlatten(es, fmt, n - 1);
    }
  }

  /** The first `n` elements raise one top-band issue per top-band offender. */
  lemma TopZonesCount(es: seq<Element>, fmt: CanvasFormat, n: nat)
    requires n <= |es|
    ensures multiset(SafeZonesUpTo(es, fmt, n))[TopSafeZone] == |set i | 0 <= i < n && TopOffender(es[i], fmt)|
  {
    var f, p := e => ElementZones(e, fmt), e => TopOffender(e, fmt);
    var hits := Hits(n, k => 0 <= k < |es| && p(es[k]));
    assert multiset(Flatten(es, n, f))[TopSafeZone] == |hits| by {
      forall e
        ensures multiset(f(e))[TopSafeZone] == if p(e) then 1 else 0
      {
        ElementZonesCount(e, fmt);
      }
      FlattenCount(es, n, f, TopSafeZone, p);
    }
    assert hits == set i | 0 <= i < n && TopOffender(es[i], fmt);
    SafeZonesFlatten(es, fmt, n);
  }

  /** The first `n` elements raise one bottom-band issue per bottom-band offender. */
  lemma BottomZonesCount(es: seq<Element>, fmt: CanvasFormat, n: nat)
    requires n <= |es|
    ensures multiset(SafeZonesUpTo(es, fmt, n))[BottomSafeZone] == |set i | 0 <= i < n && BottomOffender(es[i], fmt)|
  {
    var f, p := e => ElementZones(e, fmt), e => BottomOffender(e, fmt);
    var hits := Hits(n, k => 0 <= k < |es| && p(es[k]));
    assert multiset(Flatten(es, n, f))[BottomSafeZone] == |hits| by {
      forall e
        ensures multiset(f(e))[BottomSafeZone] == if p(e) then 1 else 0
      {
        ElementZonesCount(e, fmt);
      }
      FlattenCount(es, n, f, BottomSafeZone, p);
    }
    assert hits == set i | 0 <= i < n && BottomOffender(es[i], fmt);
    SafeZonesFlatten(es, fmt, n);
  }

  /** The rule raises band issues only. */
  lemma SafeZonesLength(es: seq<Element>, fmt: CanvasFormat, n: nat)
    requires n <= |es|
    ensures |SafeZonesUpTo(es, fmt, n)| ==
      multiset(SafeZonesUpTo(es, fmt, n))[TopSafeZone] + multiset(SafeZonesUpTo(es, fmt, n))[BottomSafeZone]
  {
    var f := e => ElementZones(e, fmt);
    forall e
      ensures |f(e)| == multiset(f(e))[TopSafeZone] + multiset(f(e))[BottomSafeZone]
    {
      ElementZonesCount(e, fmt);
    }
    SafeZonesFlatten(es, fmt, n);
    FlattenLength(es, n, f, TopSafeZone, BottomSafeZone);
  }

  /** Safe-zone issues arise only on the story format; there, a top-band issue is listed
      for each non-exempt element that starts above y 200 and a bottom-band issue for
      each one that reaches into the last 250 units, and nothing else; each costs 10. */
  lemma SafeZoneRuleExact(es: seq<Element>, fmt: CanvasFormat)
    ensures fmt.id != "story" ==> SafeZones(es, fmt) == []
    ensures TopSafeZone in SafeZones(es, fmt) <==>
      fmt.id == "story" && exists i :: 0 <= i < |es| && !SafeZoneExempt(es[i], fmt) && InTopBand(es[i])
    ensures BottomSafeZone in SafeZones(es, fmt) <==>
      fmt.id == "story" && exists i :: 0 <= i < |es| && !SafeZoneExempt(es[i], fmt) && InBottomBand(es[i], fmt)
    ensures fmt.id == "story" ==>
      multiset(SafeZones(es, fmt))[TopSafeZone] == |set i | 0 <= i < |es| && TopOffender(es[i], fmt)| &&
      multiset(SafeZones(es, fmt))[BottomSafeZone] == |set i | 0 <= i < |es| && BottomOffender(es[i], fmt)|
    ensures |SafeZones(es, fmt)| ==
      multiset(SafeZones(es, fmt))[TopSafeZone] + multiset(SafeZones(es, fmt))[BottomSafeZone]
    ensures Penalty(SafeZones(es, fmt)) == 10 * |SafeZones(es, fmt)|
  {
    if fmt.id == "story" {
      assert SafeZones(es, fmt) == SafeZonesUpTo(es, fmt, |es|);
      SafeZonesBands(es, fmt);
      SafeZonesCounts(es, fmt);
      SafeZonesPenalty(es, fmt);
    }
  }

  /** Which bands the whole loop of rule B flags, on any format. */
  lemma SafeZonesBands(es: seq<Element>, fmt: CanvasFormat)
    ensures TopSafeZone in SafeZonesUpTo(es, fmt, |es|) <==>
      exists i :: 0 <= i < |es| && !SafeZoneExempt(es[i], fmt) && InTopBand(es[i])
    ensures BottomSafeZone in SafeZonesUpTo(es, fmt, |es|) <==>
      exists i :: 0 <= i < |es| && !SafeZoneExempt(es[i], fmt) && InBottomBand(es[i], fmt)
  {
    TopZonesUpTo(es, fmt, |es|);
    BottomZonesUpTo(es, fmt, |es|);
  }

  /** How many issues of each band the whole loop of rule B lists, on any format. */
  lemma SafeZonesCounts(es: seq<Element>, fmt: CanvasFormat)
    ensures multiset(SafeZonesUpTo(es, fmt, |es|))[TopSafeZone] == |set i | 0 <= i < |es| && TopOffender(es[i], fmt)|
    ensures multiset(SafeZonesUpTo(es, fmt, |es|))[BottomSafeZone] == |set i | 0 <= i < |es| && BottomOffender(es[i], fmt)|
    ensures |SafeZonesUpTo(es, fmt, |es|)| ==
      multiset(SafeZonesUpTo(es, fmt, |es|))[TopSafeZone] + multiset(SafeZonesUpTo(es, fmt, |es|))[BottomSafeZone]
  {
    TopZonesCount(es, fmt, |es|);
    BottomZonesCount(es, fmt, |es|);
    SafeZonesLength(es, fmt, |es|);
  }

  /** Every issue of rule B costs 10. */
  lemma SafeZonesPenalty(es: seq<Element>, fmt: CanvasFormat)
    ensures Penalty(SafeZonesUpTo(es, fmt, |es|)) == 10 * |SafeZonesUpTo(es, fmt, |es|)|
  {
    SafeZonesUpToKinds(es, fmt, |es|);
    PenaltyUniform(SafeZonesUpTo(es, fmt, |es|), 10);
  }

  // ---------------------------------------------------------------------------------
  // C. Minimum font size.

  /** `el.style.fontSize || 0`. */
  function FontSizeOf(el: Element): int
  {
    match el.style.fontSize
    case None => 0
    case Some(f) => f
  }

  function FontsUpTo(ts: seq<Element>, n: nat): seq<Issue>
    requires n <= |ts|
  {
    if n == 0 then []
    else FontsUpTo(ts, n - 1) + ElementFont(ts[n - 1])
  }

  /** What one text element contributes to rule C. */
  function ElementFont(el: Element): seq<Issue>
  {
    if FontSizeOf(el) < 20 then [SmallFont(el.style.fontSize)] else []
  }

  function Fonts(es: seq<Element>): seq<Issue>
  {
    FontsUpTo(TextElements(es), |TextElements(es)|)
  }

  lemma {:induction false} FontsUpToExact(ts: seq<Element>, n: nat)
    requires n <= |ts|
    ensures |FontsUpTo(ts, n)| <= n
    ensures forall x :: x in FontsUpTo(ts, n) <==>
      exists k :: 0 <= k < n && FontSizeOf(ts[k]) < 20 && x == SmallFont(ts[k].style.fontSize)
    ensures forall k :: 0 <= k < |FontsUpTo(ts, n)| ==> FontsUpTo(ts, n)[k].SmallFont?
  {
    if n > 0 {
      FontsUpToExact(ts, n - 1);
    }
  }

  /** One font issue per text element below 20 among the first `n`. */
  lemma FontsCount(ts: seq<Element>, n: nat)
    requires n <= |ts|
    ensures |FontsUpTo(ts, n)| == |set k | 0 <= k < n && FontSizeOf(ts[k]) < 20|
  {
    var p := e => FontSizeOf(e) < 20;
    var hits := Hits(n, k => 0 <= k < |ts| && p(ts[k]));
    assert |Flatten(ts, n, ElementFont)| == |hits| by {
      FlattenSize(ts, n, ElementFont, p);
    }
    assert hits == set k | 0 <= k < n && FontSizeOf(ts[k]) < 20;
    FontsFlatten(ts, n);
  }

  /** Rule C's loop flattens the per-element font issues. */
  lemma {:induction false} FontsFlatten(ts: seq<Element>, n: nat)
    requires n <= |ts|
    ensures FontsUpTo(ts, n) == Flatten(ts, n, ElementFont)
  {
    if n > 0 {
      FontsFlatten(ts, n - 1);
    }
  }

  /** The font rule lists an issue exactly for the text elements whose size (absent = 0)
      is below 20, so it is silent exactly when every text element is at least 20. */
  lemma FontRuleExact(es: seq<Element>)
    ensures forall x :: x in Fonts(es) <==>
      exists e :: e in es && e.kind == Text && FontSizeOf(e) < 20 && x == SmallFont(e.style.fontSize)
    ensures Fonts(es) == [] <==> forall e :: e in es && e.kind == Text ==> FontSizeOf(e) >= 20
    ensures |Fonts(es)| == |set k | 0 <= k < |TextElements(es)| && FontSizeOf(TextElements(es)[k]) < 20|
  {
    FontsMembers(es);
    FontsCount(TextElements(es), |TextElements(es)|);
  }

  /** Which font issues the rule lists, and when it is silent. */
  lemma FontsMembers(es: seq<Element>)
    ensures forall x :: x in Fonts(es) <==>
      exists e :: e in es && e.kind == Text && FontSizeOf(e) < 20 && x == SmallFont(e.style.fontSize)
    ensures Fonts(es) == [] <==> forall e :: e in es && e.kind == Text ==> FontSizeOf(e) >= 20
  {
    var ts := TextElements(es);
    FontsUpToExact(ts, |ts|);
    forall x | exists e :: e in es && e.kind == Text && FontSizeOf(e) < 20 && x == SmallFont(e.style.fontSize)
      ensures x in Fonts(es)
    {
      var e :| e in es && e.kind == Text && FontSizeOf(e) < 20 && x == SmallFont(e.style.fontSize);
      assert e in ts;
      var k :| 0 <= k < |ts| && ts[k] == e;
    }
    if Fonts(es) != [] {
      assert Fonts(es)[0] in Fonts(es);
    } else {
      forall e | e in es && e.kind == Text
        ensures FontSizeOf(e) >= 20
      {
        assert SmallFont(e.style.fontSize) !in Fonts(es);
      }
    }
  }

  /** At most one font issue per text element, 5 points each. */
  lemma FontRuleCost(es: seq<Element>)
    ensures |Fonts(es)| <= |TextElements(es)|
    ensures Penalty(Fonts(es)) == 5 * |Fonts(es)|
  {
    var ts := TextElements(es);
    FontsUpToExact(ts, |ts|);
    PenaltyUniform(Fonts(es), 5);
  }

  // ---------------------------------------------------------------------------------
  // D. Packshot and CTA.

  /** An element the nearest-element rule compares against the packshot. */
  predicate Contends(e: Element, cta: Element, p: Element)
  {
    e.id != cta.id && e.id != p.id && e.kind != Shape && !e.locked
  }

  /** `e`'s centre is strictly nearer the CTA's centre than the packshot's is. */
  predicate NearerThan(e: Element, p: Element, cta: Element)
  {
    CentreDistSq4(e, cta) < CentreDistSq4(p, cta)
  }

  /** The test the nearest-element rule's `find` applies. */
  function Contender(cta: Element, p: Element): Element -> bool
  {
    e => Contends(e, cta, p) && NearerThan(e, p, cta)
  }

  function PackshotRule(es: seq<Element>): seq<Issue>
  {
    match Find(es, IsCta)
    case None => []
    case Some(cta) =>
      match Find(es, IsPackshot)
      case None => [NoPackshot]
      case Some(p) => NearestIssue(es, cta, p) + GapIssue(cta, p)
  }

  /** The first contender nearer the CTA than the packshot, if any, as an issue. */
  function NearestIssue(es: seq<Element>, cta: Element, p: Element): seq<Issue>
  {
    match Find(es, Contender(cta, p))
    case None => []
    case Some(c) => [PackshotNotNearest(c.kind)]
  }

  /** A clearance under 24 units between the CTA and the packshot, as an issue. */
  function GapIssue(cta: Element, p: Element): seq<Issue>
  {
    if GapSq(cta, p) < 576 then [NarrowGap(GapX(cta, p), GapY(cta, p))] else []
  }

  /** Without a CTA the rule is silent; with a CTA and no packshot it lists exactly the
      missing packshot; otherwise it flags a nearer contender and a gap under 24 units,
      and never the missing packshot. */
  lemma PackshotRuleCases(es: seq<Element>)
    ensures (forall e :: e in es ==> !IsCta(e)) ==> PackshotRule(es) == []
    ensures (exists e :: e in es && IsCta(e)) && (forall e :: e in es ==> !IsPackshot(e)) ==>
      PackshotRule(es) == [NoPackshot] && Penalty(PackshotRule(es)) == 10
    ensures (exists e :: e in es && IsPackshot(e)) ==> NoPackshot !in PackshotRule(es)
    ensures |PackshotRule(es)| <= 2
  {
    match Find(es, IsCta)
    case None =>
    case Some(cta) =>
      match Find(es, IsPackshot)
      case None =>
        assert Penalty([NoPackshot]) == Penalty([]) + Cost(NoPackshot);
      case Some(p) =>
        PackshotPairIssues(es, cta, p);
  }

  /** With both a CTA and a packshot, the rule lists at most a contender and a gap. */
  lemma PackshotPairIssues(es: seq<Element>, cta: Element, p: Element)
    requires Find(es, IsCta) == Some(cta) && Find(es, IsPackshot) == Some(p)
    ensures |PackshotRule(es)| <= 2 && NoPackshot !in PackshotRule(es) && RuleIssues(PackshotRule(es))
  {
    var near, gap := NearestIssue(es, cta, p), GapIssue(cta, p);
    PackshotPairSplit(es, cta, p);
    assert |near| <= 1 && forall x :: x in near ==> x.PackshotNotNearest?;
    assert |gap| <= 1 && forall x :: x in gap ==> x.NarrowGap?;
  }

  /** With both a CTA and a packshot, the rule's list is the contender part then the gap part. */
  lemma PackshotPairSplit(es: seq<Element>, cta: Element, p: Element)
    requires Find(es, IsCta) == Some(cta) && Find(es, IsPackshot) == Some(p)
    ensures PackshotRule(es) == NearestIssue(es, cta, p) + GapIssue(cta, p)
  {
  }

  /** Some issue of `xs` names an element nearer the CTA than the packshot. */
  predicate FlagsNotNearest(xs: seq<Issue>)
  {
    exists i :: 0 <= i < |xs| && xs[i].PackshotNotNearest?
  }

  /** Some issue of `xs` reports a gap under 24 units. */
  predicate FlagsNarrowGap(xs: seq<Issue>)
  {
    exists i :: 0 <= i < |xs| && xs[i].NarrowGap?
  }

  /** With both a CTA and a packshot, a nearer element is flagged exactly when some
      unlocked non-shape element other than the two has its centre strictly nearer the
      CTA's, and a narrow gap exactly when the edge clearance is under 24 units; each
      issue costs 15. */
  lemma PackshotPairExact(es: seq<Element>, cta: Element, p: Element)
    requires Find(es, IsCta) == Some(cta) && Find(es, IsPackshot) == Some(p)
    ensures FlagsNotNearest(PackshotRule(es)) <==> exists e :: e in es && Contends(e, cta, p) && NearerThan(e, p, cta)
    ensures FlagsNarrowGap(PackshotRule(es)) <==> GapSq(cta, p) < 576
    ensures |PackshotRule(es)| ==
      (if exists e :: e in es && Contends(e, cta, p) && NearerThan(e, p, cta) then 1 else 0) +
      (if GapSq(cta, p) < 576 then 1 else 0)
    ensures Penalty(PackshotRule(es)) == 15 * |PackshotRule(es)|
  {
    var near, gap := NearestIssue(es, cta, p), GapIssue(cta, p);
    PackshotPairSplit(es, cta, p);
    NearestIssueExact(es, cta, p);
    GapIssueExact(cta, p);
    FlagsJoin(near, gap);
    assert forall x :: x in near + gap ==> x in near || x in gap;
    PenaltyUniform(near + gap, 15);
  }

  /** The gap check lists one narrow-gap issue exactly when the clearance is under 24 units. */
  lemma GapIssueExact(cta: Element, p: Element)
    ensures FlagsNarrowGap(GapIssue(cta, p)) <==> GapSq(cta, p) < 576
    ensures |GapIssue(cta, p)| == if GapSq(cta, p) < 576 then 1 else 0
    ensures !FlagsNotNearest(GapIssue(cta, p))
    ensures forall x :: x in GapIssue(cta, p) ==> Cost(x) == 15
  {
    if GapSq(cta, p) < 576 {
      assert GapIssue(cta, p)[0].NarrowGap?;
    }
  }

  /** The nearest-element check flags exactly when a contender is nearer, with one issue. */
  lemma NearestIssueExact(es: seq<Element>, cta: Element, p: Element)
    ensures FlagsNotNearest(NearestIssue(es, cta, p)) <==>
      exists e :: e in es && Contends(e, cta, p) && NearerThan(e, p, cta)
    ensures |NearestIssue(es, cta, p)| == if exists e :: e in es && Contends(e, cta, p) && NearerThan(e, p, cta) then 1 else 0
    ensures !FlagsNarrowGap(NearestIssue(es, cta, p))
    ensures forall x :: x in NearestIssue(es, cta, p) ==> Cost(x) == 15
  {
    if exists e :: e in es && Contends(e, cta, p) && NearerThan(e, p, cta) {
      var e :| e in es && Contends(e, cta, p) && NearerThan(e, p, cta);
      var i :| 0 <= i < |es| && es[i] == e;
      assert Contender(cta, p)(es[i]);
      assert NearestIssue(es, cta, p)[0].PackshotNotNearest?;
    }
  }

  /** A flag of either kind is in a concatenation exactly when it is in one of the parts. */
  lemma FlagsJoin(a: seq<Issue>, b: seq<Issue>)
    ensures FlagsNotNearest(a + b) <==> FlagsNotNearest(a) || FlagsNotNearest(b)
    ensures FlagsNarrowGap(a + b) <==> FlagsNarrowGap(a) || FlagsNarrowGap(b)
  {
    if FlagsNotNearest(a + b) {
      var i :| 0 <= i < |a + b| && (a + b)[i].PackshotNotNearest?;
      if i >= |a| {
        assert b[i - |a|].PackshotNotNearest?;
      }
    }
    if FlagsNotNearest(a) {
      var i :| 0 <= i < |a| && a[i].PackshotNotNearest?;
      assert (a + b)[i].PackshotNotNearest?;
    }
    if FlagsNotNearest(b) {
      var i :| 0 <= i < |b| && b[i].PackshotNotNearest?;
      assert (a + b)[|a| + i].PackshotNotNearest?;
    }
    if FlagsNarrowGap(a + b) {
      var i :| 0 <= i < |a + b| && (a + b)[i].NarrowGap?;
      if i >= |a| {
        assert b[i - |a|].NarrowGap?;
      }
    }
    if FlagsNarrowGap(a) {
      var i :| 0 <= i < |a| && a[i].NarrowGap?;
      assert (a + b)[i].NarrowGap?;
    }
    if FlagsNarrowGap(b) {
      var i :| 0 <= i < |b| && b[i].NarrowGap?;
      assert (a + b)[|a| + i].NarrowGap?;
    }
  }

  /** When the CTA and the packshot overlap or touch, the gap is 0 and a narrow-gap issue
      is listed. */
  lemma OverlappingCtaNarrowGap(es: seq<Element>, cta: Element, p: Element)
    requires Find(es, IsCta) == Some(cta) && Find(es, IsPackshot) == Some(p)
    requires IsOverlapping(cta, p)
    ensures NarrowGap(0, 0) in PackshotRule(es)
  {
    GapZeroIffOverlap(cta, p);
    assert GapX(cta, p) * GapX(cta, p) >= 0 && GapY(cta, p) * GapY(cta, p) >= 0;
    SumOfSquaresZero(GapX(cta, p), GapY(cta, p));
    var rule := PackshotRule(es);
    assert rule[|rule| - 1] == NarrowGap(0, 0);
  }

  /** The frames of the nearest-element scenario: a CTA, a packshot far from it and a
      small text box right next to the CTA. */
  const ScenarioCta := Element("cta", Shape, Some(CtaPrimary), 700, 700, 200, 60, None, false, NoStyle)
  const ScenarioPackshot := Element("pack", Image, Some(Packshot), 300, 300, 200, 200, None, false, NoStyle)
  const ScenarioText := Element("txt", Text, None, 690, 690, 50, 50, Some("Hi"), false, NoStyle)

  /** The squared doubled centre distance from the doubled centre offsets. */
  lemma CentreDistOf(e: Element, c: Element, dx: int, dy: int)
    requires dx == (2 * e.x + e.width) - (2 * c.x + c.width)
    requires dy == (2 * e.y + e.height) - (2 * c.y + c.height)
    ensures CentreDistSq4(e, c) == dx * dx + dy * dy
  {
  }

  /** The scenario's packshot clears the CTA by 200 units on each axis. */
  lemma ScenarioGap()
    ensures GapSq(ScenarioCta, ScenarioPackshot) == 80000
  {
    var gx, gy := GapX(ScenarioCta, ScenarioPackshot), GapY(ScenarioCta, ScenarioPackshot);
    assert gx == 200 && gy == 200;
  }

  /** In the three-element scenario, the CTA and the packshot are found, and the text box
      is the first contender nearer the CTA. */
  lemma ScenarioFinds()
    ensures var three := [ScenarioCta, ScenarioPackshot, ScenarioText];
      Find(three, IsCta) == Some(ScenarioCta) && Find(three, IsPackshot) == Some(ScenarioPackshot) &&
      Find(three, Contender(ScenarioCta, ScenarioPackshot)) == Some(ScenarioText)
  {
    var three := [ScenarioCta, ScenarioPackshot, ScenarioText];
    FindFirst(three, IsCta, 0);
    FindFirst(three, IsPackshot, 1);
    ScenarioContenders();
    FindFirst(three, Contender(ScenarioCta, ScenarioPackshot), 2);
  }

  /** Only the text box contends with the packshot, and it is nearer the CTA. */
  lemma ScenarioContenders()
    ensures var near := Contender(ScenarioCta, ScenarioPackshot);
      near(ScenarioText) && !near(ScenarioCta) && !near(ScenarioPackshot)
  {
    CentreDistOf(ScenarioText, ScenarioCta, -170, -30);
    CentreDistOf(ScenarioPackshot, ScenarioCta, -800, -660);
  }

  /** The text box nearer the CTA than the packshot is flagged. */
  lemma NearestElementScenario()
    ensures PackshotRule([ScenarioCta, ScenarioPackshot, ScenarioText]) == [PackshotNotNearest(Text)]
  {
    ScenarioFinds();
    ScenarioGap();
  }

  /** Without the text box the packshot is the nearest element and far enough away:
      nothing is flagged. */
  lemma FarPackshotScenario()
    ensures PackshotRule([ScenarioCta, ScenarioPackshot]) == []
  {
    var two := [ScenarioCta, ScenarioPackshot];
    FindFirst(two, IsCta, 0);
    FindFirst(two, IsPackshot, 1);
    assert Find(two, Contender(ScenarioCta, ScenarioPackshot)).None?;
    ScenarioGap();
  }

  // ---------------------------------------------------------------------------------
  // E. The drinkaware lock-up.

  function AlcoholRule(es: seq<Element>, hasAlcohol: bool): seq<Issue>
  {
    if !hasAlcohol then []
    else match Find(es, IsDrinkaware)
      case None => [DrinkawareMissing]
      case Some(d) =>
        TwoChecks(DrinkawareColour, d.style.color != Some("black") && d.style.color != Some("white"),
          DrinkawareHeight, d.height < 20)
  }

  /** Two independent checks in order: `a` when `flagA` holds, then `b` when `flagB` does. */
  function TwoChecks(a: Issue, flagA: bool, b: Issue, flagB: bool): seq<Issue>
  {
    (if flagA then [a] else []) + (if flagB then [b] else [])
  }

  /** Each of two distinct issues of the same cost is listed exactly when its check fails,
      and nothing else is. */
  lemma TwoChecksExact(a: Issue, flagA: bool, b: Issue, flagB: bool)
    requires a != b && Cost(a) == Cost(b)
    ensures a in TwoChecks(a, flagA, b, flagB) <==> flagA
    ensures b in TwoChecks(a, flagA, b, flagB) <==> flagB
    ensures forall x :: x in TwoChecks(a, flagA, b, flagB) ==> x == a || x == b
    ensures |TwoChecks(a, flagA, b, flagB)| == (if flagA then 1 else 0) + (if flagB then 1 else 0)
    ensures Penalty(TwoChecks(a, flagA, b, flagB)) == Cost(a) * |TwoChecks(a, flagA, b, flagB)|
  {
    PenaltyUniform(TwoChecks(a, flagA, b, flagB), Cost(a));
  }

  /** Without alcohol the rule is silent; with alcohol and no lock-up it lists exactly the
      missing lock-up (30 points); with a lock-up that is black or white and at least 20
      high it is silent. */
  lemma AlcoholRuleCases(es: seq<Element>, hasAlcohol: bool)
    ensures !hasAlcohol ==> AlcoholRule(es, hasAlcohol) == []
    ensures hasAlcohol && (forall e :: e in es ==> !IsDrinkaware(e)) ==>
      AlcoholRule(es, hasAlcohol) == [DrinkawareMissing] && Penalty(AlcoholRule(es, hasAlcohol)) == 30
    ensures Find(es, IsDrinkaware).Some? ==>
      var d := Find(es, IsDrinkaware).value;
      (AlcoholRule(es, hasAlcohol) == [] <==>
        !hasAlcohol || ((d.style.color == Some("black") || d.style.color == Some("white")) && d.height >= 20))
  {
    if hasAlcohol && forall e :: e in es ==> !IsDrinkaware(e) {
      assert Penalty([DrinkawareMissing]) == Penalty([]) + Cost(DrinkawareMissing);
    }
  }

  /** With alcohol and a lock-up `d` (the first one), the lock-up is never reported
      missing; its colour is flagged exactly when it is neither black nor white and its
      height exactly when it is under 20, 10 points each. */
  lemma AlcoholLockupChecks(es: seq<Element>, hasAlcohol: bool, d: Element)
    requires hasAlcohol && Find(es, IsDrinkaware) == Some(d)
    ensures DrinkawareMissing !in AlcoholRule(es, hasAlcohol)
    ensures DrinkawareColour in AlcoholRule(es, hasAlcohol) <==>
      d.style.color != Some("black") && d.style.color != Some("white")
    ensures DrinkawareHeight in AlcoholRule(es, hasAlcohol) <==> d.height < 20
    ensures |AlcoholRule(es, hasAlcohol)| ==
      (if d.style.color != Some("black") && d.style.color != Some("white") then 1 else 0) +
      (if d.height < 20 then 1 else 0)
    ensures Penalty(AlcoholRule(es, hasAlcohol)) == 10 * |AlcoholRule(es, hasAlcohol)|
  {
    var badColour, short := d.style.color != Some("black") && d.style.color != Some("white"), d.height < 20;
    assert AlcoholRule(es, hasAlcohol) == TwoChecks(DrinkawareColour, badColour, DrinkawareHeight, short);
    TwoChecksExact(DrinkawareColour, badColour, DrinkawareHeight, short);
  }

  // ---------------------------------------------------------------------------------
  // F. Clubcard legal text.

  function ClubcardRule(es: seq<Element>, texts: seq<string>): seq<Issue>
  {
    if Find(es, IsClubcardTile).None? then []
    else TwoChecks(NoEndsDate, !AnyEndsDate(texts), NoAppRequired, !AnyAppRequired(texts))
  }

  /** Without a clubcard tile the rule is silent; with one, the missing date and the
      missing app line are flagged independently, 15 points each. */
  lemma ClubcardRuleCases(es: seq<Element>, texts: seq<string>)
    ensures (forall e :: e in es ==> !IsClubcardTile(e)) ==> ClubcardRule(es, texts) == []
    ensures (exists e :: e in es && IsClubcardTile(e)) ==>
      (NoEndsDate in ClubcardRule(es, texts) <==> !AnyEndsDate(texts)) &&
      (NoAppRequired in ClubcardRule(es, texts) <==> !AnyAppRequired(texts)) &&
      |ClubcardRule(es, texts)| == (if !AnyEndsDate(texts) then 1 else 0) + (if !AnyAppRequired(texts) then 1 else 0)
    ensures Penalty(ClubcardRule(es, texts)) == 15 * |ClubcardRule(es, texts)|
  {
    if exists e :: e in es && IsClubcardTile(e) {
      var e :| e in es && IsClubcardTile(e);
      var i :| 0 <= i < |es| && es[i] == e;
      assert Find(es, IsClubcardTile).Some?;
      ClubcardWithTile(es, texts);
    } else {
      assert Find(es, IsClubcardTile).None?;
      PenaltyUniform([], 15);
    }
  }

  /** With a clubcard tile, the rule lists the missing date then the missing app line,
      each exactly when it is missing. */
  lemma ClubcardWithTile(es: seq<Element>, texts: seq<string>)
    requires Find(es, IsClubcardTile).Some?
    ensures NoEndsDate in ClubcardRule(es, texts) <==> !AnyEndsDate(texts)
    ensures NoAppRequired in ClubcardRule(es, texts) <==> !AnyAppRequired(texts)
    ensures |ClubcardRule(es, texts)| == (if !AnyEndsDate(texts) then 1 else 0) + (if !AnyAppRequired(texts) then 1 else 0)
    ensures Penalty(ClubcardRule(es, texts)) == 15 * |ClubcardRule(es, texts)|
  {
    var missingDate, missingApp := !AnyEndsDate(texts), !AnyAppRequired(texts);
    assert ClubcardRule(es, texts) == TwoChecks(NoEndsDate, missingDate, NoAppRequired, missingApp);
    TwoChecksExact(NoEndsDate, missingDate, NoAppRequired, missingApp);
  }

  /** The texts of a fresh clubcard tile, "Clubcard Price" and "£3.50", carry neither the
      date nor the app line, so a tile with only them draws both legal issues, 30 points. */
  lemma ClubcardScenario(es: seq<Element>)
    requires exists e :: e in es && IsClubcardTile(e)
    ensures ClubcardRule(es, ["Clubcard Price", "£3.50"]) == [NoEndsDate, NoAppRequired]
    ensures Penalty(ClubcardRule(es, ["Clubcard Price", "£3.50"])) == 30
  {
    var texts := ["Clubcard Price", "£3.50"];
    var t := texts[0];
    forall i | 0 <= i <= |t| - 10
      ensures !EndsDateAt(t, i)
    {
      assert Fold(t[i]) != 'e';
    }
    assert !AnyEndsDate(texts);
    assert !AnyAppRequired(texts);
    ClubcardRuleCases(es, texts);
  }

  /** A lower-case pattern occurs, ignoring case, where a matching middle part is put. */
  lemma MatchesInside(a: string, m: string, b: string, p: string)
    requires |m| == |p| && forall j :: 0 <= j < |m| ==> Fold(m[j]) == p[j]
    ensures MatchesFoldedAt(a + m + b, p, |a|)
  {
    forall j | 0 <= j < |p|
      ensures Fold((a + m + b)[|a| + j]) == p[j]
    {
      assert (a + m + b)[|a| + j] == m[j];
    }
  }

  /** The legal tag's text, in its three parts. */
  const LegalOpening := "Selected stores. While stocks last. "
  const AppLine := "Clubcard/app required"
  const DateLine := "Ends 01/01"
  const LegalLine := LegalOpening + AppLine + ". " + DateLine

  /** The legal tag's text carries an `Ends DD/MM` date. */
  lemma LegalLineHasDate()
    ensures HasEndsDate(LegalLine)
  {
    var head := LegalOpening + AppLine + ". ";
    MatchesInside(head, "Ends ", "01/01", "ends ");
    assert head + "Ends " + "01/01" == LegalLine;
    var i := |head|;
    assert LegalLine[i + 5..] == "01/01";
    assert EndsDateAt(LegalLine, i);
  }

  /** The legal tag's text carries the app line. */
  lemma LegalLineHasApp()
    ensures HasAppRequired(LegalLine)
  {
    MatchesInside(LegalOpening, AppLine, ". " + DateLine, "clubcard/app required");
    assert LegalOpening + AppLine + (". " + DateLine) == LegalLine;
    assert MatchesFoldedAt(LegalLine, "clubcard/app required", |LegalOpening|);
  }

  // ---------------------------------------------------------------------------------
  // The report.

  /** Every deterministic issue, in rule order. */
  function Findings(es: seq<Element>, fmt: CanvasFormat): seq<Issue>
  {
    var texts := TextContent(es);
    Collisions(es, fmt) + SafeZones(es, fmt) + Fonts(es) + PackshotRule(es) +
    AlcoholRule(es, HasAlcohol(texts)) + ClubcardRule(es, texts)
  }

  /** The report the audit produces from the oracle's report `ai`. */
  function Audited(es: seq<Element>, fmt: CanvasFormat, ai: ComplianceReport): ComplianceReport
  {
    var issues := ai.issues + Findings(es, fmt);
    var score := ai.score - Penalty(Findings(es, fmt));
    ComplianceReport(|issues| == 0, if score < 0 then 0 else score, issues, ai.suggestions)
  }

  /** The oracle's report when the service fails or answers with something unparsable. */
  const FallbackReport := ComplianceReport(false, 0, [Semantic("AI Service Error: Could not validate.")],
    ["Please check internet connection and Puter service."])

  /** The shape of the final report: the oracle's issues come first and are kept, its
      suggestions pass through, the score is never negative and never above the
      oracle's, it drops by at least 5 per deterministic issue until it reaches 0, and
      the report is compliant exactly when neither the oracle nor any rule found
      anything. */
  lemma AuditedReport(es: seq<Element>, fmt: CanvasFormat, ai: ComplianceReport)
    ensures var r := Audited(es, fmt, ai);
      |r.issues| >= |ai.issues| && r.issues[..|ai.issues|] == ai.issues &&
      r.issues[|ai.issues|..] == Findings(es, fmt) &&
      r.suggestions == ai.suggestions &&
      r.score >= 0 && (ai.score >= 0 ==> r.score <= ai.score) &&
      (r.score > 0 ==> r.score <= ai.score - 5 * |Findings(es, fmt)|) &&
      (Findings(es, fmt) == [] ==> r.score == (if ai.score < 0 then 0 else ai.score)) &&
      (r.isCompliant <==> ai.issues == [] && Findings(es, fmt) == [])
  {
    var f := Findings(es, fmt);
    FindingsAreRuleIssues(es, fmt);
    PenaltyOfRuleIssues(f);
    assert (ai.issues + f)[..|ai.issues|] == ai.issues;
    assert (ai.issues + f)[|ai.issues|..] == f;
  }

  /** Issues that only the rules raise, never the oracle. */
  predicate RuleIssues(xs: seq<Issue>)
  {
    forall x :: x in xs ==> !x.Semantic?
  }

  lemma RuleIssuesJoin(a: seq<Issue>, b: seq<Issue>)
    requires RuleIssues(a) && RuleIssues(b)
    ensures RuleIssues(a + b)
  {
  }

  /** With a lock-up, the rule lists only colour and height issues. */
  lemma AlcoholLockupKinds(es: seq<Element>, hasAlcohol: bool, d: Element)
    requires Find(es, IsDrinkaware) == Some(d)
    ensures forall x :: x in AlcoholRule(es, hasAlcohol) ==> x == DrinkawareColour || x == DrinkawareHeight
  {
    if hasAlcohol {
      var badColour, short := d.style.color != Some("black") && d.style.color != Some("white"), d.height < 20;
      assert AlcoholRule(es, hasAlcohol) == TwoChecks(DrinkawareColour, badColour, DrinkawareHeight, short);
      TwoChecksExact(DrinkawareColour, badColour, DrinkawareHeight, short);
    }
  }

  /** Rules D, E and F raise no semantic issue. */
  lemma LastRulesAreRuleIssues(es: seq<Element>, texts: seq<string>)
    ensures RuleIssues(PackshotRule(es))
    ensures RuleIssues(AlcoholRule(es, HasAlcohol(texts)))
    ensures RuleIssues(ClubcardRule(es, texts))
  {
    PackshotRuleIssues(es);
    AlcoholRuleIssues(es, HasAlcohol(texts));
    ClubcardKinds(es, texts);
  }

  /** The clubcard rule lists only the missing date and the missing app line. */
  lemma ClubcardKinds(es: seq<Element>, texts: seq<string>)
    ensures forall x :: x in ClubcardRule(es, texts) ==> x == NoEndsDate || x == NoAppRequired
  {
    if Find(es, IsClubcardTile).Some? {
      var missingDate, missingApp := !AnyEndsDate(texts), !AnyAppRequired(texts);
      assert ClubcardRule(es, texts) == TwoChecks(NoEndsDate, missingDate, NoAppRequired, missingApp);
      TwoChecksExact(NoEndsDate, missingDate, NoAppRequired, missingApp);
    }
  }

  lemma PackshotRuleIssues(es: seq<Element>)
    ensures RuleIssues(PackshotRule(es))
  {
    match Find(es, IsCta)
    case None =>
    case Some(cta) =>
      match Find(es, IsPackshot)
      case None =>
      case Some(p) =>
        PackshotPairIssues(es, cta, p);
  }

  lemma AlcoholRuleIssues(es: seq<Element>, hasAlcohol: bool)
    ensures RuleIssues(AlcoholRule(es, hasAlcohol))
  {
    match Find(es, IsDrinkaware)
    case None =>
    case Some(d) =>
      AlcoholLockupKinds(es, hasAlcohol, d);
  }

  /** No rule raises a semantic issue. */
  lemma FindingsAreRuleIssues(es: seq<Element>, fmt: CanvasFormat)
    ensures RuleIssues(Findings(es, fmt))
  {
    var texts := TextContent(es);
    var c := Collisions(es, fmt);
    var z := SafeZones(es, fmt);
    var f := Fonts(es);
    var d := PackshotRule(es);
    var e := AlcoholRule(es, HasAlcohol(texts));
    var k := ClubcardRule(es, texts);
    CollisionKinds(es, ProtectedOf(es), fmt, |es|);
    assert RuleIssues(c);
    SafeZonesUpToKinds(es, fmt, |es|);
    assert RuleIssues(z);
    FontsUpToExact(TextElements(es), |TextElements(es)|);
    assert RuleIssues(f) by {
      forall x | x in f ensures !x.Semantic? {
        var i :| 0 <= i < |f| && f[i] == x;
      }
    }
    LastRulesAreRuleIssues(es, texts);
    RuleIssuesJoin(c, z);
    RuleIssuesJoin(c + z, f);
    RuleIssuesJoin(c + z + f, d);
    RuleIssuesJoin(c + z + f + d, e);
    RuleIssuesJoin(c + z + f + d + e, k);
  }

  /** When the oracle fails, the audit can never pass and its score is 0. */
  lemma FallbackNeverPasses(es: seq<Element>, fmt: CanvasFormat)
    ensures !Audited(es, fmt, FallbackReport).isCompliant && Audited(es, fmt, FallbackReport).score == 0
  {
  }

  /** A story-format text element at y 50 and height 100 lies in the top band only: one
      issue, 10 points. */
  lemma StoryTopBandScenario(el: Element)
    requires el.kind == Text && el.y == 50 && el.height == 100
    ensures SafeZones([el], Story) == [TopSafeZone] && Penalty(SafeZones([el], Story)) == 10
  {
    assert !SafeZoneExempt(el, Story) && InTopBand(el) && !InBottomBand(el, Story);
    assert SafeZones([el], Story) == SafeZonesUpTo([el], Story, 0) + ElementZones(el, Story);
    assert Penalty([TopSafeZone]) == Penalty([]) + Cost(TopSafeZone);
  }

  /** Alcohol in the copy with no drinkaware lock-up on the canvas: the missing lock-up is
      listed and the rules cost at least 30 points. */
  lemma AlcoholWithoutLockupScenario(es: seq<Element>, fmt: CanvasFormat)
    requires HasAlcohol(TextContent(es))
    requires forall e :: e in es ==> !IsDrinkaware(e)
    ensures DrinkawareMissing in Findings(es, fmt)
    ensures Penalty(Findings(es, fmt)) >= 30
  {
    var texts := TextContent(es);
    AlcoholRuleCases(es, true);
    var before := Collisions(es, fmt) + SafeZones(es, fmt) + Fonts(es) + PackshotRule(es);
    var after := ClubcardRule(es, texts);
    assert Findings(es, fmt) == before + [DrinkawareMissing] + after;
    PenaltyAppend(before + [DrinkawareMissing], after);
    PenaltyPush(before, DrinkawareMissing);
    assert Penalty([DrinkawareMissing]) == 30;
  }

  // ---------------------------------------------------------------------------------
  // The imperative audit.

  /** Rule A: for each element not exempt, and each protected element it intrudes on,
      push an issue and take 20 points. */
  method CollisionRule(es: seq<Element>, fmt: CanvasFormat, issues0: seq<Issue>, score0: int)
    returns (issues: seq<Issue>, score: int)
    ensures issues == issues0 + Collisions(es, fmt)
    ensures score == score0 - Penalty(Collisions(es, fmt))
  {
    var prots := ProtectedOf(es);
    issues, score := issues0, score0;
    for i := 0 to |es|
      invariant issues == issues0 + CollisionsUpTo(es, prots, fmt, i)
      invariant score == score0 - Penalty(CollisionsUpTo(es, prots, fmt, i))
    {
      var own, cost := ElementCollisions(es[i], prots, fmt);
      AppendStep(issues0, CollisionsUpTo(es, prots, fmt, i), own);
      issues := issues + own;
      score := score - cost;
    }
  }

  /** `issues0 + before` grown by `own` is `issues0` followed by `before + own`, whose
      penalty is the sum of the two parts. */
  lemma AppendStep(issues0: seq<Issue>, before: seq<Issue>, own: seq<Issue>)
    ensures issues0 + before + own == issues0 + (before + own)
    ensures Penalty(before + own) == Penalty(before) + Penalty(own)
  {
    ConcatAssoc(issues0, before, own);
    PenaltyAppend(before, own);
  }

  /** One pass of the outer `forEach` of rule A: an exempt element returns early, any
      other one is checked against every protected element. */
  method ElementCollisions(el: Element, prots: seq<Element>, fmt: CanvasFormat)
    returns (own: seq<Issue>, cost: int)
    ensures own == (if CollisionExempt(el, fmt) then [] else OverlaysUpTo(el, prots, |prots|))
    ensures cost == Penalty(own)
  {
    // `protectedElements.includes(el)` holds exactly when `el` is protected, since
    // `el` is drawn from the same list (the ensures of `ProtectedOf`).
    if CollisionExempt(el, fmt) {
      return [], 0;
    }
    own, cost := OverlayCheck(el, prots);
  }

  /** The inner `forEach` of rule A: the protected elements `el` overlaps while sitting
      above them, with what they cost. */
  method OverlayCheck(el: Element, prots: seq<Element>) returns (over: seq<Issue>, cost: int)
    ensures over == OverlaysUpTo(el, prots, |prots|) && cost == Penalty(over)
  {
    over, cost := [], 0;
    for j := 0 to |prots|
      invariant over == OverlaysUpTo(el, prots, j) && cost == Penalty(over)
    {
      var prot := prots[j];
      if IsOverlapping(el, prot) &&
         el.style.zIndex.Some? && el.style.zIndex.value != 0 && prot.style.zIndex.Some? &&
         prot.style.zIndex.value != 0 && el.style.zIndex.value > prot.style.zIndex.value
      {
        PenaltyPush(over, Overlay(prot.subtype));
        over := over + [Overlay(prot.subtype)];
        cost := cost + 20;
      } else {
        assert OverlaysUpTo(el, prots, j + 1) == over;
      }
    }
  }

  /** Rule B: on the story format, every element that is not a full-width shape or image
      costs 10 for entering the top band and 10 for entering the bottom band. */
  method SafeZoneRule(es: seq<Element>, fmt: CanvasFormat, issues0: seq<Issue>, score0: int)
    returns (issues: seq<Issue>, score: int)
    ensures issues == issues0 + SafeZones(es, fmt)
    ensures score == score0 - Penalty(SafeZones(es, fmt))
  {
    issues, score := issues0, score0;
    if fmt.id == "story" {
      for i := 0 to |es|
        invariant issues == issues0 + SafeZonesUpTo(es, fmt, i)
        invariant score == score0 - Penalty(SafeZonesUpTo(es, fmt, i))
      {
        var zone, cost := ElementZoneCheck(es[i], fmt);
        AppendStep(issues0, SafeZonesUpTo(es, fmt, i), zone);
        issues := issues + zone;
        score := score - cost;
      }
    }
  }

  /** One pass of the loop of rule B: full-width shapes and images are skipped, any
      other element gets both band tests. */
  method ElementZoneCheck(el: Element, fmt: CanvasFormat) returns (zone: seq<Issue>, cost: int)
    ensures zone == ElementZones(el, fmt) && cost == Penalty(zone)
  {
    if !(el.kind == Shape && el.width == fmt.width) && !(el.kind == Image && el.width == fmt.width) {
      zone, cost := BandCheck(el, fmt);
    } else {
      zone, cost := [], 0;
    }
  }

  /** The two band tests for one element, with what they cost. */
  method BandCheck(el: Element, fmt: CanvasFormat) returns (zone: seq<Issue>, cost: int)
    ensures zone == ZoneIssues(el, fmt) && cost == Penalty(zone)
  {
    zone, cost := [], 0;
    if el.y < 200 {
      zone := zone + [TopSafeZone];
      cost := cost + 10;
    }
    if el.y + el.height > fmt.height - 250 {
      PenaltyPush(zone, BottomSafeZone);
      zone := zone + [BottomSafeZone];
      cost := cost + 10;
    }
    assert Penalty([TopSafeZone]) == 10 by {
      PenaltyPush([], TopSafeZone);
    }
  }

  /** Rule C: every text element whose size (absent = 0) is below 20 costs 5. */
  method FontRule(es: seq<Element>, issues0: seq<Issue>, score0: int)
    returns (issues: seq<Issue>, score: int)
    ensures issues == issues0 + Fonts(es)
    ensures score == score0 - Penalty(Fonts(es))
  {
    var textElements := TextElements(es);
    issues, score := issues0, score0;
    for i := 0 to |textElements|
      invariant issues == issues0 + FontsUpTo(textElements, i)
      invariant score == score0 - Penalty(FontsUpTo(textElements, i))
    {
      var own, cost := FontCheck(textElements[i]);
      AppendStep(issues0, FontsUpTo(textElements, i), own);
      issues := issues + own;
      score := score - cost;
    }
  }

  /** One pass of the loop of rule C. */
  method FontCheck(el: Element) returns (own: seq<Issue>, cost: int)
    ensures own == ElementFont(el) && cost == Penalty(own)
  {
    own, cost := [], 0;
    if FontSizeOf(el) < 20 {
      PenaltyPush([], SmallFont(el.style.fontSize));
      own, cost := [SmallFont(el.style.fontSize)], 5;
    }
  }

  /** Rule D: with a CTA on the canvas, a missing packshot costs 10; otherwise a
      contender nearer the CTA than the packshot costs 15 and a gap under 24 units
      costs 15. */
  method PackshotCtaRule(es: seq<Element>, issues0: seq<Issue>, score0: int)
    returns (issues: seq<Issue>, score: int)
    ensures issues == issues0 + PackshotRule(es)
    ensures score == score0 - Penalty(PackshotRule(es))
  {
    issues, score := issues0, score0;
    ghost var found: seq<Issue> := [];
    var packshot := Find(es, IsPackshot);
    var cta := Find(es, IsCta);
    if cta.Some? {
      if packshot.None? {
        issues, score, found := Push(issues, score, issues0, score0, found, NoPackshot);
      } else {
        var c, p := cta.value, packshot.value;
        var closer := Find(es, Contender(c, p));
        if closer.Some? {
          issues, score, found := Push(issues, score, issues0, score0, found, PackshotNotNearest(closer.value.kind));
        }
        if GapSq(c, p) < 576 {
          issues, score, found := Push(issues, score, issues0, score0, found, NarrowGap(GapX(c, p), GapY(c, p)));
        }
      }
    }
    assert found == PackshotRule(es);
  }

  /** Rule E: when the copy mentions alcohol, a missing lock-up costs 30; otherwise a
      colour other than black or white costs 10 and a height under 20 costs 10. */
  method AlcoholCheck(es: seq<Element>, hasAlcohol: bool, issues0: seq<Issue>, score0: int)
    returns (issues: seq<Issue>, score: int)
    ensures issues == issues0 + AlcoholRule(es, hasAlcohol)
    ensures score == score0 - Penalty(AlcoholRule(es, hasAlcohol))
  {
    issues, score := issues0, score0;
    ghost var found: seq<Issue> := [];
    if hasAlcohol {
      var drinkaware := Find(es, IsDrinkaware);
      if drinkaware.None? {
        issues, score, found := Push(issues, score, issues0, score0, found, DrinkawareMissing);
      } else {
        var d := drinkaware.value;
        ghost var badColour, short := d.style.color != Some("black") && d.style.color != Some("white"), d.height < 20;
        if d.style.color != Some("black") && d.style.color != Some("white") {
          issues, score, found := Push(issues, score, issues0, score0, found, DrinkawareColour);
        }
        if d.height < 20 {
          issues, score, found := Push(issues, score, issues0, score0, found, DrinkawareHeight);
        }
        assert found == TwoChecks(DrinkawareColour, badColour, DrinkawareHeight, short);
      }
    }
    assert found == AlcoholRule(es, hasAlcohol);
  }

  /** Rule F: with a clubcard tile on the canvas, a missing `Ends DD/MM` date costs 15 and
      a missing app line costs 15. */
  method ClubcardCheck(es: seq<Element>, textContent: seq<string>, issues0: seq<Issue>, score0: int)
    returns (issues: seq<Issue>, score: int)
    ensures issues == issues0 + ClubcardRule(es, textContent)
    ensures score == score0 - Penalty(ClubcardRule(es, textContent))
  {
    issues, score := issues0, score0;
    ghost var found: seq<Issue> := [];
    var clubcardTile := Find(es, IsClubcardTile);
    if clubcardTile.Some? {
      var hasDate := AnyEndsDate(textContent);
      var hasAppReq := AnyAppRequired(textContent);
      if !hasDate {
        issues, score, found := Push(issues, score, issues0, score0, found, NoEndsDate);
      }
      if !hasAppReq {
        issues, score, found := Push(issues, score, issues0, score0, found, NoAppRequired);
      }
    }
    assert found == ClubcardRule(es, textContent);
  }

  /** `issues.push(x); score -= cost`, with the ghost list of what this rule has pushed
      since `issues` was `base` and the score was `start`. */
  method Push(issues0: seq<Issue>, score0: int, ghost base: seq<Issue>, ghost start: int,
              ghost found0: seq<Issue>, x: Issue)
    returns (issues: seq<Issue>, score: int, ghost found: seq<Issue>)
    requires issues0 == base + found0 && score0 == start - Penalty(found0)
    ensures found == found0 + [x]
    ensures issues == base + found && score == start - Penalty(found)
  {
    issues := issues0 + [x];
    score := score0 - Cost(x);
    found := found0 + [x];
    AppendStep(base, found0, [x]);
    PenaltyPush([], x);
  }

  /** `handleComplianceCheck`: ask the oracle, run the six rules in order, floor the score
      at 0 and set compliance from the issue list. */
  method ComplianceCheck(es: seq<Element>, fmt: CanvasFormat, oracle: (seq<string>, bool) -> ComplianceReport)
    returns (report: ComplianceReport)
    ensures report == Audited(es, fmt, oracle(TextContent(es), HasAlcohol(TextContent(es))))
  {
    var textContent := TextContent(es);
    var hasAlcohol := HasAlcohol(textContent);
    var ai := oracle(textContent, hasAlcohol);

    var issues := ai.issues;
    var suggestions := ai.suggestions;
    var score := ai.score;

    issues, score := CollisionRule(es, fmt, issues, score);
    ghost var found := Collisions(es, fmt);
    issues, score := SafeZoneRule(es, fmt, issues, score);
    AppendStep(ai.issues, found, SafeZones(es, fmt));
    found := found + SafeZones(es, fmt);
    issues, score := FontRule(es, issues, score);
    AppendStep(ai.issues, found, Fonts(es));
    found := found + Fonts(es);
    issues, score := PackshotCtaRule(es, issues, score);
    AppendStep(ai.issues, found, PackshotRule(es));
    found := found + PackshotRule(es);
    issues, score := AlcoholCheck(es, hasAlcohol, issues, score);
    AppendStep(ai.issues, found, AlcoholRule(es, hasAlcohol));
    found := found + AlcoholRule(es, hasAlcohol);
    issues, score := ClubcardCheck(es, textContent, issues, score);
    AppendStep(ai.issues, found, ClubcardRule(es, textContent));
    found := found + ClubcardRule(es, textContent);
    assert found == Findings(es, fmt);

    report := ComplianceReport(|issues| == 0, if score < 0 then 0 else score, issues, suggestions);
  }
}
