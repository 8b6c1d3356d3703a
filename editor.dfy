/** The element collection held by the application shell (App.tsx): partial updates by
    id, deletion by id, appending a new element with defaults and the top z-index, and
    the backdrop resize that follows a format switch. The transforms are pure functions;
    the `Editor` class holds the two state cells (`elements`, `selectedId`) and the
    active format, and each handler replaces them. */
module Editor {
  import opened Types

  /** `Partial<CreativeElement>`: the fields an update sets. A present field replaces the
      element's; `style` is replaced as a whole (the merge is shallow). */
  datatype Patch = Patch(
    id: Option<Id>,
    kind: Option<ElementType>,
    subtype: Option<Subtype>,
    x: Option<int>,
    y: Option<int>,
    width: Option<int>,
    height: Option<int>,
    content: Option<string>,
    locked: Option<bool>,
    style: Option<Style>)

  const EmptyPatch := Patch(None, None, None, None, None, None, None, None, None, None)

  function Pick<T>(o: Option<T>, d: T): T
  {
    match o
    case Some(v) => v
    case None => d
  }

  /** `{ ...el, ...updates }`. */
  function Merge(e: Element, p: Patch): Element
  {
    Element(
      Pick(p.id, e.id),
      Pick(p.kind, e.kind),
      if p.subtype.Some? then p.subtype else e.subtype,
      Pick(p.x, e.x),
      Pick(p.y, e.y),
      Pick(p.width, e.width),
      Pick(p.height, e.height),
      if p.content.Some? then p.content else e.content,
      Pick(p.locked, e.locked),
      Pick(p.style, e.style))
  }

  /** `handleUpdateElement`: every element with the given id is merged with the patch;
      every other element, and the order, is unchanged. */
  function Updated(es: seq<Element>, id: Id, p: Patch): (r: seq<Element>)
    ensures |r| == |es|
    ensures forall i :: 0 <= i < |es| && es[i].id == id ==> r[i] == Merge(es[i], p)
    ensures forall i :: 0 <= i < |es| && es[i].id != id ==> r[i] == es[i]
  {
    if es == [] then []
    else
      var init := Updated(es[..|es| - 1], id, p);
      var last := es[|es| - 1];
      init + [if last.id == id then Merge(last, p) else last]
  }

  /** `handleDeleteElement`'s filter: the elements whose id differs, in their order. */
  function Deleted(es: seq<Element>, id: Id): (r: seq<Element>)
    ensures forall e :: e in r <==> e in es && e.id != id
    ensures |r| <= |es|
  {
    if es == [] then []
    else
      var init := Deleted(es[..|es| - 1], id);
      var last := es[|es| - 1];
      assert es == es[..|es| - 1] + [last];
      if last.id == id then init else init + [last]
  }

  /** `Math.max(0, ...elements.map(e => e.style.zIndex || 0))`. */
  function MaxZ(es: seq<Element>): (m: int)
    ensures m >= 0
    ensures forall i :: 0 <= i < |es| ==> ZOf(es[i]) <= m
    ensures m == 0 || exists i :: 0 <= i < |es| && ZOf(es[i]) == m
  {
    if es == [] then 0
    else
      var init := MaxZ(es[..|es| - 1]);
      var z := ZOf(es[|es| - 1]);
      assert forall i :: 0 <= i < |es| - 1 ==> es[..|es| - 1][i] == es[i];
      if z > init then z else init
  }

  /** The `config` argument of `handleAddElement` (absent fields are `None`; an absent
      config is `NoConfig`). */
  datatype AddConfig = AddConfig(
    x: Option<int>,
    y: Option<int>,
    width: Option<int>,
    height: Option<int>,
    content: Option<string>,
    style: Style,
    locked: Option<bool>)

  const NoConfig := AddConfig(None, None, None, None, None, NoStyle, None)

  /** The style of a new element: defaults for colour, font size and weight and z-index
      `maxZ + 10`, then `...config.style` spread over them, so every field the config
      gives wins. */
  function NewStyle(c: Style, maxZ: int): Style
  {
    Style(
      c.backgroundColor,
      Some(Pick(c.color, "#000000")),
      Some(Pick(c.fontSize, 48)),
      Some(Pick(c.fontWeight, "400")),
      c.fontFamily,
      c.borderRadius,
      c.opacity,
      Some(Pick(c.zIndex, maxZ + 10)),
      c.rotation,
      c.border,
      c.textAlign)
  }

  /** The record `handleAddElement` builds. The frame defaults to a 300 x 100 box centred
      on the format (`??` keeps a given 0); content falls back (`||`) to "New Element" for
      text; `locked` is `config.locked || false`. */
  function NewElement(kind: ElementType, subtype: Subtype, c: AddConfig, fmt: CanvasFormat,
                      newId: Id, es: seq<Element>): (e: Element)
    ensures e.id == newId && e.kind == kind && e.subtype == Some(subtype)
    ensures c.style.zIndex.None? ==> forall i :: 0 <= i < |es| ==> ZOf(es[i]) < ZOf(e)
    ensures c.style.zIndex.None? ==> ZOf(e) >= 10
    ensures c.style.zIndex.Some? ==> e.style.zIndex == c.style.zIndex
    ensures e.locked <==> c.locked == Some(true)
    ensures c.x.None? ==> 2 * (e.x + 150) == fmt.width || fmt.width % 2 == 1
    ensures c.y.None? ==> 2 * (e.y + 50) == fmt.height || fmt.height % 2 == 1
    ensures (c.x.Some? ==> e.x == c.x.value) && (c.y.Some? ==> e.y == c.y.value)
    ensures e.width == (if c.width.Some? then c.width.value else 300)
    ensures e.height == (if c.height.Some? then c.height.value else 100)
    ensures kind == Text ==> e.content.Some? && e.content.value != ""
    ensures kind != Text && e.content.Some? ==> c.content == e.content
  {
    Element(
      newId, kind, Some(subtype),
      Pick(c.x, fmt.width / 2 - 150),
      Pick(c.y, fmt.height / 2 - 50),
      Pick(c.width, 300),
      Pick(c.height, 100),
      if c.content.Some? && c.content.value != "" then c.content
      else if kind == Text then Some("New Element") else None,
      c.locked == Some(true),
      NewStyle(c.style, MaxZ(es)))
  }

  /** A given non-empty content is kept, otherwise text reads "New Element" and other
      kinds have none; colour, font size and weight default to "#000000", 48 and "400"
      unless configured, a z-index is always set, and every other style field is the
      configured one. */
  lemma NewElementDefaults(kind: ElementType, subtype: Subtype, c: AddConfig, fmt: CanvasFormat,
                           newId: Id, es: seq<Element>)
    ensures var e := NewElement(kind, subtype, c, fmt, newId, es);
      (c.content.Some? && c.content.value != "" ==> e.content == c.content) &&
      (c.content.None? || c.content.value == "" ==>
        e.content == if kind == Text then Some("New Element") else None)
    ensures var e := NewElement(kind, subtype, c, fmt, newId, es);
      e.style.color == (if c.style.color.Some? then c.style.color else Some("#000000")) &&
      e.style.fontSize == (if c.style.fontSize.Some? then c.style.fontSize else Some(48)) &&
      e.style.fontWeight == (if c.style.fontWeight.Some? then c.style.fontWeight else Some("400")) &&
      e.style.zIndex.Some? &&
      e.style.(color := c.style.color, fontSize := c.style.fontSize, fontWeight := c.style.fontWeight,
        zIndex := c.style.zIndex) == c.style
  {
  }

  /** `elements.find(e => (e.id.includes('bg') || e.style.zIndex === 0) && e.locked)`
      followed by an update of that id to the new format's size. */
  function ResizedForFormat(es: seq<Element>, f: CanvasFormat): (r: seq<Element>)
  {
    match Find(es, IsLockedBackdrop)
    case None => es
    case Some(bg) => Updated(es, bg.id, EmptyPatch.(width := Some(f.width), height := Some(f.height)))
  }

  /** `selectedElement`: the first element whose id is the selected one. */
  function Selected(es: seq<Element>, sel: Option<Id>): Option<Element>
  {
    match sel
    case None => None
    case Some(id) =>
      match IndexOfId(es, id)
      case None => None
      case Some(k) => Some(es[k])
  }

  // ---------------------------------------------------------------------------------
  // The sample state INITIAL_ELEMENTS (a Low Everyday Price layout).

  const InitialElements: seq<Element> := [
    Element("bg-1", Shape, Some(NoSubtype), 0, 0, 1080, 1080, None, true,
      NoStyle.(backgroundColor := Some("#ffffff"), zIndex := Some(0))),
    Element("text-1", Text, Some(NoSubtype), 50, 100, 980, 140, Some("SUMMER SAVINGS"), false,
      NoStyle.(color := Some("#00539f"), fontSize := Some(100), fontWeight := Some("700"),
               fontFamily := Some("Inter"), zIndex := Some(10), textAlign := Some(AlignLeft))),
    Element("packshot-1", Image, Some(Packshot), 340, 300, 400, 400,
      Some("https://picsum.photos/400/400?random=101"), false, NoStyle.(zIndex := Some(5))),
    Element("tile-clubcard", Shape, Some(ValueTileClubcard), 750, 750, 250, 250, None, true,
      NoStyle.(backgroundColor := Some("#ffdd00"), color := Some("#000000"), zIndex := Some(20))),
    Element("text-clubcard-label", Text, Some(NoSubtype), 750, 770, 250, 40, Some("Clubcard Price"), true,
      NoStyle.(color := Some("#00539f"), fontSize := Some(24), fontWeight := Some("700"),
               fontFamily := Some("Inter"), zIndex := Some(21), textAlign := Some(AlignCenter))),
    Element("text-price-offer", Text, Some(NoSubtype), 750, 810, 250, 60, Some("£3.50"), true,
      NoStyle.(color := Some("#00539f"), fontSize := Some(56), fontWeight := Some("800"),
               fontFamily := Some("Inter"), zIndex := Some(21), textAlign := Some(AlignCenter))),
    Element("text-price-reg", Text, Some(NoSubtype), 750, 880, 250, 30, Some("Was £4.50"), true,
      NoStyle.(color := Some("#00539f"), fontSize := Some(18), fontWeight := Some("500"),
               fontFamily := Some("Inter"), zIndex := Some(21), textAlign := Some(AlignCenter))),
    Element("text-legal", Text, Some(LegalText), 50, 1020, 980, 40,
      Some("Selected stores. While stocks last. Clubcard/app required. Ends 01/01"), false,
      NoStyle.(color := Some("#666666"), fontSize := Some(20), fontWeight := Some("400"),
               fontFamily := Some("Inter"), zIndex := Some(10)))
  ]

  // ---------------------------------------------------------------------------------
  // Properties of the transforms.

  /** Merging the same patch twice is merging it once. */
  lemma MergeIdempotent(e: Element, p: Patch)
    ensures Merge(Merge(e, p), p) == Merge(e, p)
  {
  }

  /** Repeating an update is a no-op, provided the patch does not rename the element. */
  lemma {:induction false} UpdatedIdempotent(es: seq<Element>, id: Id, p: Patch)
    requires p.id.None? || p.id == Some(id)
    ensures Updated(Updated(es, id, p), id, p) == Updated(es, id, p)
  {
    var once := Updated(es, id, p);
    var twice := Updated(once, id, p);
    forall i | 0 <= i < |es|
      ensures twice[i] == once[i]
    {
      if es[i].id == id {
        assert once[i] == Merge(es[i], p);
        assert once[i].id == id;
        MergeIdempotent(es[i], p);
      }
    }
  }

  /** An update that does not touch `id` keeps the list of ids, so unique ids stay unique. */
  lemma UpdatedKeepsIds(es: seq<Element>, id: Id, p: Patch)
    requires p.id.None?
    ensures forall i :: 0 <= i < |es| ==> Updated(es, id, p)[i].id == es[i].id
    ensures UniqueIds(es) ==> UniqueIds(Updated(es, id, p))
  {
  }

  /** Deleting distributes over concatenation, which with the single-element cases
      pins it down as an order-preserving filter. */
  lemma {:induction false} DeletedConcat(a: seq<Element>, b: seq<Element>, id: Id)
    ensures Deleted(a + b, id) == Deleted(a, id) + Deleted(b, id)
    decreases |b|
  {
    if b == [] {
      assert a + b == a;
    } else {
      var b' := b[..|b| - 1];
      assert (a + b)[..|a + b| - 1] == a + b';
      assert (a + b)[|a + b| - 1] == b[|b| - 1];
      DeletedConcat(a, b', id);
    }
  }

  lemma DeletedSingle(e: Element, id: Id)
    ensures Deleted([e], id) == if e.id == id then [] else [e]
  {
    assert [e][..0] == [];
  }

  /** Deleting an id that is absent changes nothing. */
  lemma {:induction false} DeletedAbsent(es: seq<Element>, id: Id)
    requires forall i :: 0 <= i < |es| ==> es[i].id != id
    ensures Deleted(es, id) == es
  {
    if es != [] {
      DeletedAbsent(es[..|es| - 1], id);
      assert es == es[..|es| - 1] + [es[|es| - 1]];
    }
  }

  /** Deletion removes exactly the elements with that id: the survivors are a
      subsequence, and their count drops by the number of matches. */
  function CountId(es: seq<Element>, id: Id): nat
  {
    if es == [] then 0
    else CountId(es[..|es| - 1], id) + (if es[|es| - 1].id == id then 1 else 0)
  }

  lemma {:induction false} DeletedLength(es: seq<Element>, id: Id)
    ensures |Deleted(es, id)| == |es| - CountId(es, id)
  {
    if es != [] {
      DeletedLength(es[..|es| - 1], id);
    }
  }

  /** The new element's z-index sits above every existing one unless the config
      supplies a z-index; the top z is `max(0, ...) + 10`. */
  lemma NewElementOnTop(kind: ElementType, subtype: Subtype, c: AddConfig, fmt: CanvasFormat,
                        newId: Id, es: seq<Element>)
    requires c.style.zIndex.None?
    ensures ZOf(NewElement(kind, subtype, c, fmt, newId, es)) == MaxZ(es) + 10
    ensures forall i :: 0 <= i < |es| ==>
      ZOf(es[i]) + 10 <= ZOf(NewElement(kind, subtype, c, fmt, newId, es))
  {
  }

  /** Adding with a fresh id keeps ids unique. */
  lemma AddKeepsUniqueIds(es: seq<Element>, e: Element)
    requires UniqueIds(es)
    requires forall i :: 0 <= i < |es| ==> es[i].id != e.id
    ensures UniqueIds(es + [e])
  {
  }

  predicate FirstBackdrop(es: seq<Element>, k: int)
  {
    0 <= k < |es| && IsLockedBackdrop(es[k]) && forall i :: 0 <= i < k ==> !IsLockedBackdrop(es[i])
  }

  /** The format switch resizes exactly the first locked backdrop (and any element sharing
      its id) to the new format and leaves everything else as it was. */
  lemma ResizeOnlyBackdrop(es: seq<Element>, f: CanvasFormat)
    ensures |ResizedForFormat(es, f)| == |es|
    ensures (forall i :: 0 <= i < |es| ==> !IsLockedBackdrop(es[i])) ==> ResizedForFormat(es, f) == es
    ensures forall k :: FirstBackdrop(es, k) ==>
              (forall i :: 0 <= i < |es| && es[i].id == es[k].id ==>
                ResizedForFormat(es, f)[i] == es[i].(width := f.width, height := f.height)) &&
              forall i :: 0 <= i < |es| && es[i].id != es[k].id ==> ResizedForFormat(es, f)[i] == es[i]
  {
    match FindIndex(es, IsLockedBackdrop)
    case None =>
    case Some(b) =>
      forall k | FirstBackdrop(es, k)
        ensures k == b
      {
      }
  }

  /** In the sample state ids are unique and the only element whose z-index is 0 is the
      locked `bg-1` backdrop; it is also the only locked backdrop. */
  lemma InitialElementsWellFormed()
    ensures UniqueIds(InitialElements)
    ensures forall i :: 0 <= i < |InitialElements| && ZOf(InitialElements[i]) == 0 ==>
      i == 0 && InitialElements[i].id == "bg-1" && InitialElements[i].locked
    ensures forall i :: 0 <= i < |InitialElements| ==>
      (IsLockedBackdrop(InitialElements[i]) <==> i == 0)
  {
    ContainsPrefix("bg-1", "bg");
    LockedIdsWithoutBg();
  }

  /** The ids of the locked sample elements other than the backdrop do not contain "bg". */
  lemma LockedIdsWithoutBg()
    ensures !Contains("tile-clubcard", "bg") && !Contains("text-clubcard-label", "bg")
    ensures !Contains("text-price-offer", "bg") && !Contains("text-price-reg", "bg")
  {
    NotContainsPair("tile-clubcard", "bg", 0);
    NotContainsPair("text-clubcard-label", "bg", 0);
    NotContainsPair("text-price-offer", "bg", 0);
    NotContainsPair("text-price-reg", "bg", 0);
  }

  // ---------------------------------------------------------------------------------
  // The state cells and the handlers that replace them.

  class Editor {
    var elements: seq<Element>
    var selectedId: Option<Id>
    var format: CanvasFormat

    /** The initial state: the sample layout, nothing selected, the first format. */
    constructor ()
      ensures elements == InitialElements && selectedId == None && format == CanvasFormats[0]
    {
      elements := InitialElements;
      selectedId := None;
      format := CanvasFormats[0];
    }

    method UpdateElement(id: Id, p: Patch)
      modifies this
      ensures elements == Updated(old(elements), id, p)
      ensures selectedId == old(selectedId) && format == old(format)
    {
      elements := Updated(elements, id, p);
    }

    /** `handleAddElement`: appends the new element and selects it. The id is a
        parameter standing for the generated one, which the generator keeps fresh. */
    method AddElement(kind: ElementType, subtype: Subtype, c: AddConfig, newId: Id)
      requires kind != Group
      requires forall i :: 0 <= i < |elements| ==> elements[i].id != newId
      modifies this
      ensures elements == old(elements) + [NewElement(kind, subtype, c, format, newId, old(elements))]
      ensures selectedId == Some(newId) && format == old(format)
      ensures UniqueIds(old(elements)) ==> UniqueIds(elements)
    {
      var e := NewElement(kind, subtype, c, format, newId, elements);
      if UniqueIds(elements) {
        AddKeepsUniqueIds(elements, e);
      }
      elements := elements + [e];
      selectedId := Some(newId);
    }

    /** `handleDeleteElement`: filters the id out and clears the selection iff it was the
        deleted element's. */
    method DeleteElement(id: Id)
      modifies this
      ensures elements == Deleted(old(elements), id)
      ensures selectedId == if old(selectedId) == Some(id) then None else old(selectedId)
      ensures format == old(format)
    {
      elements := Deleted(elements, id);
      if selectedId == Some(id) {
        selectedId := None;
      }
    }

    /** `onUpdateFormat`: switches the format and resizes the first locked backdrop. */
    method UpdateFormat(f: CanvasFormat)
      modifies this
      ensures format == f
      ensures elements == ResizedForFormat(old(elements), f)
      ensures selectedId == old(selectedId)
    {
      format := f;
      var bg := Find(elements, IsLockedBackdrop);
      if bg.Some? {
        UpdateElement(bg.value.id, EmptyPatch.(width := Some(f.width), height := Some(f.height)));
      }
    }
  }
}
