/** The data model of the banner editor (types.ts): element kinds and subtypes,
    placed creative elements with their optional style fields, canvas formats and
    the compliance report. */
module Types {

  datatype Option<T> = None | Some(value: T)

  type Id = string

  /** `ElementType`: a closed set of four kinds. */
  datatype ElementType = Text | Image | Shape | Group

  /** `ElementSubtype`: a closed set of twelve compliance classifications. */
  datatype Subtype =
    | NoSubtype          // 'none'
    | ValueTileClubcard  // 'value-tile-clubcard'
    | ValueTileNew       // 'value-tile-new'
    | ValueTileWhite     // 'value-tile-white'
    | CtaPrimary         // 'cta-primary'
    | LegalText          // 'legal-text'
    | TagExclusive       // 'tag-exclusive'
    | TagStandard        // 'tag-standard'
    | Logo               // 'logo'
    | LepLogo            // 'lep-logo'
    | Packshot           // 'packshot'
    | Drinkaware         // 'drinkaware'

  /** The subtype's spelling in the source, which the audit's substring tests read. */
  function SubtypeName(s: Subtype): string
  {
    match s
    case NoSubtype => "none"
    case ValueTileClubcard => "value-tile-clubcard"
    case ValueTileNew => "value-tile-new"
    case ValueTileWhite => "value-tile-white"
    case CtaPrimary => "cta-primary"
    case LegalText => "legal-text"
    case TagExclusive => "tag-exclusive"
    case TagStandard => "tag-standard"
    case Logo => "logo"
    case LepLogo => "lep-logo"
    case Packshot => "packshot"
    case Drinkaware => "drinkaware"
  }

  datatype TextAlign = AlignLeft | AlignCenter | AlignRight

  /** The style bag: every field is optional. */
  datatype Style = Style(
    backgroundColor: Option<string>,
    color: Option<string>,
    fontSize: Option<int>,
    fontWeight: Option<string>,
    fontFamily: Option<string>,
    borderRadius: Option<int>,
    opacity: Option<real>,
    zIndex: Option<int>,
    rotation: Option<int>,
    border: Option<string>,
    textAlign: Option<TextAlign>)

  const NoStyle := Style(None, None, None, None, None, None, None, None, None, None, None)

  /** `CreativeElement`. `locked` is optional in the source; every reader tests it for
      truthiness, so an absent flag is `false` here. */
  datatype Element = Element(
    id: Id,
    kind: ElementType,
    subtype: Option<Subtype>,
    x: int,
    y: int,
    width: int,
    height: int,
    content: Option<string>,
    locked: bool,
    style: Style)

  datatype CanvasFormat = CanvasFormat(id: string, name: string, width: int, height: int, ratio: string)

  const Square := CanvasFormat("sq", "Social Square", 1080, 1080, "1:1")
  const Story := CanvasFormat("story", "Social Story", 1080, 1920, "9:16")
  const Landscape := CanvasFormat("landscape", "Display Banner", 1200, 628, "1.91:1")

  /** `CANVAS_FORMATS`, in the source's order. */
  const CanvasFormats: seq<CanvasFormat> := [Square, Story, Landscape]

  /** One line of a compliance report. The semantic oracle's lines are free text; the
      deterministic rules' lines are identified by the rule that raised them (their
      wording is not modelled). */
  datatype Issue =
    | Semantic(text: string)
    | Overlay(protectedSubtype: Option<Subtype>)   // protected-zone collision
    | TopSafeZone
    | BottomSafeZone
    | SmallFont(fontSize: Option<int>)
    | NoPackshot
    | PackshotNotNearest(closer: ElementType)
    | NarrowGap(xGap: int, yGap: int)
    | DrinkawareMissing
    | DrinkawareColour
    | DrinkawareHeight
    | NoEndsDate
    | NoAppRequired

  /** `ComplianceReport`: exactly these four fields. */
  datatype ComplianceReport = ComplianceReport(
    isCompliant: bool,
    score: int,
    issues: seq<Issue>,
    suggestions: seq<string>)

  /** `style.zIndex || 0`: an absent z-index reads as 0. */
  function ZOf(e: Element): int
  {
    match e.style.zIndex
    case None => 0
    case Some(z) => z
  }

  predicate MatchesAt(s: string, p: string, i: int)
  {
    0 <= i <= |s| - |p| && s[i..i + |p|] == p
  }

  /** `s.includes(p)`. */
  predicate Contains(s: string, p: string)
  {
    exists i | 0 <= i <= |s| - |p| :: MatchesAt(s, p, i)
  }

  /** The backdrop test shared by the layer manager and the format switch: a locked
      element whose z-index is exactly 0 or whose id contains "bg". */
  predicate IsLockedBackdrop(e: Element)
  {
    e.locked && (e.style.zIndex == Some(0) || Contains(e.id, "bg"))
  }

  predicate UniqueIds(es: seq<Element>)
  {
    forall i, j :: 0 <= i < j < |es| ==> es[i].id != es[j].id
  }

  /** A string in which no two adjacent characters spell the characters of `p` at `o` and
      `o + 1` does not contain `p`. */
  lemma NotContainsPair(s: string, p: string, o: nat)
    requires o + 2 <= |p|
    requires forall i :: 0 <= i < |s| - 1 ==> s[i] != p[o] || s[i + 1] != p[o + 1]
    ensures !Contains(s, p)
  {
    forall i | 0 <= i <= |s| - |p|
      ensures !MatchesAt(s, p, i)
    {
      assert s[i..i + |p|][o] == s[i + o] && s[i..i + |p|][o + 1] == s[i + o + 1];
    }
  }

  /** Concatenation is associative (stated once so that callers need not re-derive it
      element by element). */
  lemma ConcatAssoc<T>(a: seq<T>, b: seq<T>, c: seq<T>)
    ensures a + b + c == a + (b + c)
  {
  }

  /** A string contains each of its prefixes. */
  lemma ContainsPrefix(s: string, p: string)
    requires |p| <= |s| && s[..|p|] == p
    ensures Contains(s, p)
  {
    assert MatchesAt(s, p, 0);
  }

  /** `CANVAS_FORMATS` has three entries with distinct ids and the listed sizes. */
  lemma CanvasFormatsTable()
    ensures |CanvasFormats| == 3
    ensures forall i, j :: 0 <= i < j < |CanvasFormats| ==> CanvasFormats[i].id != CanvasFormats[j].id
    ensures exists f :: f in CanvasFormats && f.id == "story" && f.width == 1080 && f.height == 1920
    ensures exists f :: f in CanvasFormats && f.id == "sq" && f.width == 1080 && f.height == 1080
    ensures exists f :: f in CanvasFormats && f.id == "landscape" && f.width == 1200 && f.height == 628
  {
    assert CanvasFormats[1] == Story;
    assert CanvasFormats[0] == Square;
    assert CanvasFormats[2] == Landscape;
  }

  /** The twelve subtype spellings are pairwise distinct, so the datatype is a faithful
      image of the closed string union. */
  lemma SubtypeNamesDistinct(s: Subtype, t: Subtype)
    ensures SubtypeName(s) == SubtypeName(t) <==> s == t
  {
  }

  /** `Array.prototype.find`/`findIndex` on elements: the position of the first element
      satisfying `p`, if any. */
  function FindIndex(es: seq<Element>, p: Element -> bool): (r: Option<nat>)
    ensures r.None? ==> forall i :: 0 <= i < |es| ==> !p(es[i])
    ensures r.Some? ==> r.value < |es| && p(es[r.value]) && forall i :: 0 <= i < r.value ==> !p(es[i])
  {
    if es == [] then None
    else if p(es[0]) then Some(0)
    else match FindIndex(es[1..], p)
      case None => None
      case Some(k) => Some(k + 1)
  }

  /** `Array.prototype.find`: the first element satisfying `p`, if any. */
  function Find(es: seq<Element>, p: Element -> bool): (r: Option<Element>)
    ensures r.None? <==> forall i :: 0 <= i < |es| ==> !p(es[i])
    ensures r.Some? ==> r.value in es && p(r.value)
  {
    match FindIndex(es, p)
    case None => None
    case Some(k) => Some(es[k])
  }

  /** `find` returns the element at the first position satisfying `p`. */
  lemma FindFirst(es: seq<Element>, p: Element -> bool, k: nat)
    requires k < |es| && p(es[k]) && forall i :: 0 <= i < k ==> !p(es[i])
    ensures Find(es, p) == Some(es[k])
  {
    var r := FindIndex(es, p);
    assert r.Some? && !(r.value < k) && !(r.value > k);
  }

  /** `findIndex(el => el.id === id)`: the position of the first element with that id. */
  function IndexOfId(es: seq<Element>, id: Id): (r: Option<nat>)
    ensures r.None? <==> forall i :: 0 <= i < |es| ==> es[i].id != id
    ensures r.Some? ==> r.value < |es| && es[r.value].id == id && forall i :: 0 <= i < r.value ==> es[i].id != id
  {
    if es == [] then None
    else if es[0].id == id then Some(0)
    else match IndexOfId(es[1..], id)
      case None => None
      case Some(k) => Some(k + 1)
  }
}
