/** The asset builders of the tools panel (components/Tools.tsx): each is a fixed recipe
    of `onAddElement` calls (the Low Everyday Price template also makes one
    `onDeleteElement` call) whose frames derive from the format and whose z-indices
    derive from the current maximum. A recipe is run against the element list in two
    ways: as the shell's handlers are written, where every add rebuilds the list from
    the snapshot the handler closed over, and one call after the other, which is what
    the builders evidently intend. */
module Templates {
  import opened Types
  import opened Geometry
  import opened Editor
  import opened Audit

  /** One call a builder makes: `onAddElement(kind, subtype, config)` or
      `onDeleteElement(id)`. */
  datatype Op = Add(kind: ElementType, subtype: Subtype, config: AddConfig) | Remove(id: Id)

  datatype TileVariant = ClubcardTile | NewTile | WhiteTile

  datatype TagVariant = ExclusiveTag | StandardTag | LegalTag

  // `BRAND_PALETTE`.
  const TescoBlue := "#00539f"
  const TescoRed := "#d6001c"
  const ClubcardYellow := "#ffdd00"
  const Black := "#000000"
  const Slate := "#333333"

  const TileSize := 250

  /** A config that places the element in a given frame. */
  function Framed(x: int, y: int, w: int, h: int, content: Option<string>, style: Style,
                  locked: Option<bool>): AddConfig
  {
    AddConfig(Some(x), Some(y), Some(w), Some(h), content, style, locked)
  }

  predicate AllAdds(ops: seq<Op>)
  {
    forall k :: 0 <= k < |ops| ==> ops[k].Add?
  }

  // ---------------------------------------------------------------------------------
  // The recipes.

  /** `addValueTile`: a locked 250-unit tile 40 units in from the bottom-right corner at
      z `max + 50`, with its locked labels one above it. */
  function ValueTileOps(v: TileVariant, fmt: CanvasFormat, es: seq<Element>): (ops: seq<Op>)
    ensures AllAdds(ops) && |ops| == (if v == ClubcardTile then 4 else 2)
  {
    var x := fmt.width - TileSize - 40;
    var y := fmt.height - TileSize - 40;
    var topZ := MaxZ(es) + 50;
    match v
    case ClubcardTile => [
      Add(Shape, ValueTileClubcard, Framed(x, y, TileSize, TileSize, None,
        NoStyle.(backgroundColor := Some(ClubcardYellow), zIndex := Some(topZ)), Some(true))),
      Add(Text, NoSubtype, Framed(x, y + 20, TileSize, 40, Some("Clubcard Price"),
        NoStyle.(color := Some(TescoBlue), fontSize := Some(24), fontWeight := Some("700"),
                 textAlign := Some(AlignCenter), zIndex := Some(topZ + 1)), Some(true))),
      Add(Text, NoSubtype, Framed(x, y + 60, TileSize, 60, Some("£3.50"),
        NoStyle.(color := Some(TescoBlue), fontSize := Some(56), fontWeight := Some("800"),
                 textAlign := Some(AlignCenter), zIndex := Some(topZ + 1)), Some(true))),
      Add(Text, NoSubtype, Framed(x, y + 130, TileSize, 30, Some("Was £4.50"),
        NoStyle.(color := Some(TescoBlue), fontSize := Some(18), fontWeight := Some("500"),
                 textAlign := Some(AlignCenter), zIndex := Some(topZ + 1)), Some(true)))]
    case NewTile => [
      Add(Shape, ValueTileNew, Framed(x, y, TileSize, TileSize, None,
        NoStyle.(backgroundColor := Some(TescoRed), borderRadius := Some(999), zIndex := Some(topZ)), Some(true))),
      Add(Text, NoSubtype, Framed(x, y, TileSize, TileSize, Some("NEW"),
        NoStyle.(color := Some("white"), fontSize := Some(48), fontWeight := Some("700"),
                 textAlign := Some(AlignCenter), zIndex := Some(topZ + 1)), Some(true)))]
    case WhiteTile => [
      Add(Shape, ValueTileWhite, Framed(x, y, TileSize, TileSize, None,
        NoStyle.(backgroundColor := Some("white"), borderRadius := Some(999), border := Some("2px solid #ccc"),
                 zIndex := Some(topZ)), Some(true))),
      Add(Text, NoSubtype, Framed(x, y, TileSize, TileSize, Some("£2.00"),
        NoStyle.(color := Some(Black), fontSize := Some(56), fontWeight := Some("700"),
                 textAlign := Some(AlignCenter), zIndex := Some(topZ + 1)), Some(true)))]
  }

  /** `addTag`: one text element; the legal line spans the format 50 units in from each
      side, 50 units above the bottom edge. */
  function TagOps(v: TagVariant, fmt: CanvasFormat): (ops: seq<Op>)
    ensures AllAdds(ops) && |ops| == 1
  {
    match v
    case ExclusiveTag => [Add(Text, TagExclusive, NoConfig.(content := Some("Only at Tesco"),
        style := NoStyle.(color := Some(Slate), fontSize := Some(24), fontWeight := Some("600"))))]
    case StandardTag => [Add(Text, TagStandard, NoConfig.(content := Some("Available at Tesco"),
        style := NoStyle.(color := Some(Slate), fontSize := Some(24), fontWeight := Some("600"))))]
    case LegalTag => [Add(Text, LegalText, NoConfig.(x := Some(50), y := Some(fmt.height - 50),
        width := Some(fmt.width - 100), content := Some(LegalLine),
        style := NoStyle.(color := Some("#666"), fontSize := Some(14))))]
  }

  /** `addDrinkaware`: a black 300 x 30 lock-up 100 units above the bottom edge. */
  function DrinkawareOps(fmt: CanvasFormat): (ops: seq<Op>)
    ensures AllAdds(ops) && |ops| == 1
  {
    [Add(Text, Drinkaware, Framed(50, fmt.height - 100, 300, 30, Some("Drinkaware.co.uk"),
      NoStyle.(color := Some("black"), fontSize := Some(20), fontWeight := Some("700"),
               border := Some("1px solid black"), textAlign := Some(AlignCenter)), None))]
  }

  /** The five adds of `applyLEPTemplate`: a locked white backdrop at z 0, the headline, a
      packshot left of centre, the logo to its right, and the legal line. */
  function LepAdds(fmt: CanvasFormat): (ops: seq<Op>)
    ensures AllAdds(ops) && |ops| == 5
  {
    var cx := fmt.width / 2;
    var cy := fmt.height / 2;
    [Add(Shape, NoSubtype, Framed(0, 0, fmt.width, fmt.height, None,
       NoStyle.(backgroundColor := Some("#ffffff"), zIndex := Some(0)), Some(true))),
     Add(Text, NoSubtype, Framed(50, 80, 800, 100, Some("LOW EVERYDAY PRICE"),
       NoStyle.(color := Some(TescoBlue), fontSize := Some(80), fontWeight := Some("700"),
                textAlign := Some(AlignLeft), zIndex := Some(10)), None)),
     Add(Image, Packshot, Framed(cx - 250, cy - 200, 400, 400, Some("https://picsum.photos/400/400"),
       NoStyle.(zIndex := Some(5)), None)),
     Add(Shape, LepLogo, Framed(cx + 160, cy - 100, 100, 100, None,
       NoStyle.(backgroundColor := Some(TescoBlue), borderRadius := Some(50), zIndex := Some(10)), Some(false)))
    ] + TagOps(LegalTag, fmt)
  }

  /** `applyLEPTemplate`: delete the first CTA, if any, then the five adds. */
  function LepOps(fmt: CanvasFormat, es: seq<Element>): (ops: seq<Op>)
    ensures Find(es, IsCta).None? ==> ops == LepAdds(fmt)
    ensures Find(es, IsCta).Some? ==> ops == [Remove(Find(es, IsCta).value.id)] + LepAdds(fmt)
  {
    match Find(es, IsCta)
    case None => LepAdds(fmt)
    case Some(cta) => [Remove(cta.id)] + LepAdds(fmt)
  }

  /** The template removes something exactly when the canvas has a CTA; the removal
      comes first, names the first CTA, and every other call is one of the five adds. */
  lemma LepOpsShape(fmt: CanvasFormat, es: seq<Element>)
    ensures (exists k :: 0 <= k < |LepOps(fmt, es)| && LepOps(fmt, es)[k].Remove?) <==>
      exists e :: e in es && IsCta(e)
    ensures LepOps(fmt, es)[0].Remove? ==> LepOps(fmt, es)[0].id == Find(es, IsCta).value.id
    ensures forall k :: 0 < k < |LepOps(fmt, es)| ==> LepOps(fmt, es)[k].Add?
    ensures |LepOps(fmt, es)| == if exists e :: e in es && IsCta(e) then 6 else 5
  {
    var ops, adds := LepOps(fmt, es), LepAdds(fmt);
    if exists e :: e in es && IsCta(e) {
      var e :| e in es && IsCta(e);
      var i :| 0 <= i < |es| && es[i] == e;
      assert Find(es, IsCta).Some?;
      assert ops[0].Remove?;
    } else {
      assert Find(es, IsCta).None?;
      assert forall k :: 0 <= k < |ops| ==> ops[k] == adds[k];
    }
  }

  // ---------------------------------------------------------------------------------
  // Running a recipe one call after the other.

  /** The element an add builds against the list `base`. */
  function Build(op: Op, fmt: CanvasFormat, id: Id, base: seq<Element>): Element
    requires op.Add?
  {
    NewElement(op.kind, op.subtype, op.config, fmt, id, base)
  }

  /** One call against the current list. */
  function Step(cur: seq<Element>, fmt: CanvasFormat, op: Op, id: Id): seq<Element>
  {
    match op
    case Add(_, _, _) => cur + [Build(op, fmt, id, cur)]
    case Remove(rid) => Deleted(cur, rid)
  }

  /** The calls in order, each against the list the previous one left; `ids[k]` is the
      id generated for the `k`-th call. */
  function RunSequential(cur: seq<Element>, fmt: CanvasFormat, ops: seq<Op>, ids: seq<Id>): seq<Element>
    requires |ids| == |ops|
    decreases |ops|
  {
    if ops == [] then cur
    else RunSequential(Step(cur, fmt, ops[0], ids[0]), fmt, ops[1..], ids[1..])
  }

  /** Adds run one after the other append one element each and leave the existing
      elements where they were. */
  lemma {:induction false} SequentialAddsAppend(cur: seq<Element>, fmt: CanvasFormat, ops: seq<Op>, ids: seq<Id>)
    requires |ids| == |ops| && AllAdds(ops)
    ensures |RunSequential(cur, fmt, ops, ids)| == |cur| + |ops|
    ensures RunSequential(cur, fmt, ops, ids)[..|cur|] == cur
    decreases |ops|
  {
    if ops != [] {
      var next := Step(cur, fmt, ops[0], ids[0]);
      SequentialAddsAppend(next, fmt, ops[1..], ids[1..]);
      var r := RunSequential(next, fmt, ops[1..], ids[1..]);
      assert r[..|cur|] == r[..|next|][..|cur|];
    }
  }

  /** Adds with ids other than `rid` never bring back an element with id `rid`. */
  lemma {:induction false} SequentialAddsKeepAbsent(cur: seq<Element>, fmt: CanvasFormat, ops: seq<Op>,
                                                    ids: seq<Id>, rid: Id)
    requires |ids| == |ops| && AllAdds(ops)
    requires forall k :: 0 <= k < |ids| ==> ids[k] != rid
    requires forall e :: e in cur ==> e.id != rid
    ensures forall e :: e in RunSequential(cur, fmt, ops, ids) ==> e.id != rid
    decreases |ops|
  {
    if ops != [] {
      var next := Step(cur, fmt, ops[0], ids[0]);
      assert forall e :: e in next ==> e in cur || e.id == ids[0];
      SequentialAddsKeepAbsent(next, fmt, ops[1..], ids[1..], rid);
    }
  }

  /** An element added with an explicit z-index does not depend on the list it is added
      to. */
  lemma BuildFixedZ(op: Op, fmt: CanvasFormat, id: Id, a: seq<Element>, b: seq<Element>)
    requires op.Add? && op.config.style.zIndex.Some?
    ensures Build(op, fmt, id, a) == Build(op, fmt, id, b)
  {
  }

  // ---------------------------------------------------------------------------------
  // Running a recipe as the shell's handlers are written.

  /** A state update queued by a handler: `setElements(value)` or
      `setElements(prev => prev.filter(...))`. */
  datatype Update = Replace(value: seq<Element>) | Filter(id: Id)

  /** What one call queues. `handleAddElement` builds `[...elements, newEl]` from the
      list `es` captured when the panel was drawn, with the top z-index of that list;
      `handleDeleteElement` queues a filter of whatever list precedes it. */
  function QueuedFor(es: seq<Element>, fmt: CanvasFormat, op: Op, id: Id): Update
  {
    match op
    case Add(_, _, _) => Replace(es + [Build(op, fmt, id, es)])
    case Remove(rid) => Filter(rid)
  }

  function Queued(es: seq<Element>, fmt: CanvasFormat, ops: seq<Op>, ids: seq<Id>): (q: seq<Update>)
    requires |ids| == |ops|
    ensures |q| == |ops|
  {
    seq(|ops|, k requires 0 <= k < |ops| => QueuedFor(es, fmt, ops[k], ids[k]))
  }

  /** The list after the queued updates are applied in order, as the state hook does
      once the event handler returns. */
  function Drain(prev: seq<Element>, q: seq<Update>): seq<Element>
  {
    if q == [] then prev
    else
      var before := Drain(prev, q[..|q| - 1]);
      match q[|q| - 1]
      case Replace(v) => v
      case Filter(id) => Deleted(before, id)
  }

  function RunAsWritten(es: seq<Element>, fmt: CanvasFormat, ops: seq<Op>, ids: seq<Id>): seq<Element>
    requires |ids| == |ops|
  {
    Drain(es, Queued(es, fmt, ops, ids))
  }

  /** As written, a handler whose last call is an add leaves the snapshot plus that one
      element: every earlier add and delete is overwritten. */
  lemma AsWrittenKeepsLastAdd(es: seq<Element>, fmt: CanvasFormat, ops: seq<Op>, ids: seq<Id>)
    requires |ids| == |ops| && ops != [] && ops[|ops| - 1].Add?
    ensures var last := ops[|ops| - 1];
      RunAsWritten(es, fmt, ops, ids) ==
        es + [Build(last, fmt, ids[|ops| - 1], es)]
  {
    var q := Queued(es, fmt, ops, ids);
    assert q[|q| - 1] == QueuedFor(es, fmt, ops[|ops| - 1], ids[|ops| - 1]);
  }

  /** A handler that makes a single add behaves the same either way. */
  lemma SingleAddAgrees(es: seq<Element>, fmt: CanvasFormat, ops: seq<Op>, ids: seq<Id>)
    requires |ids| == |ops| == 1 && ops[0].Add?
    ensures RunAsWritten(es, fmt, ops, ids) == RunSequential(es, fmt, ops, ids)
  {
    AsWrittenKeepsLastAdd(es, fmt, ops, ids);
  }

  /** Any value tile as written: only its last label is kept, so the tile itself (the
      clubcard square or the roundel) is lost, where the calls run in order would add
      all of its elements. */
  lemma ValueTileAsWritten(v: TileVariant, es: seq<Element>, fmt: CanvasFormat, ids: seq<Id>)
    requires |ids| == |ValueTileOps(v, fmt, es)|
    ensures var w := RunAsWritten(es, fmt, ValueTileOps(v, fmt, es), ids);
      |w| == |es| + 1 && w[..|es|] == es && w[|es|].kind == Text && w[|es|].subtype != Some(TileSubtype(v))
    ensures |RunSequential(es, fmt, ValueTileOps(v, fmt, es), ids)| == |es| + |ValueTileOps(v, fmt, es)|
  {
    var ops := ValueTileOps(v, fmt, es);
    AsWrittenKeepsLastAdd(es, fmt, ops, ids);
    var w := es + [Build(ops[|ops| - 1], fmt, ids[|ops| - 1], es)];
    assert w[..|es|] == es;
    SequentialAddsAppend(es, fmt, ops, ids);
  }

  /** The Low Everyday Price template as written keeps the CTA it means to remove; run
      in order, no element with the CTA's id is left. */
  lemma LepTemplateCta(es: seq<Element>, fmt: CanvasFormat, ids: seq<Id>)
    requires Find(es, IsCta).Some?
    requires |ids| == |LepOps(fmt, es)|
    requires forall k :: 0 <= k < |ids| ==> ids[k] != Find(es, IsCta).value.id
    ensures Find(es, IsCta).value in RunAsWritten(es, fmt, LepOps(fmt, es), ids)
    ensures forall e :: e in RunSequential(es, fmt, LepOps(fmt, es), ids) ==> e.id != Find(es, IsCta).value.id
  {
    LepAsWrittenKeepsCta(es, fmt, ids);
    LepSequentialRemovesCta(es, fmt, ids);
  }

  lemma LepAsWrittenKeepsCta(es: seq<Element>, fmt: CanvasFormat, ids: seq<Id>)
    requires Find(es, IsCta).Some? && |ids| == |LepOps(fmt, es)|
    ensures Find(es, IsCta).value in RunAsWritten(es, fmt, LepOps(fmt, es), ids)
  {
    AsWrittenKeepsLastAdd(es, fmt, LepOps(fmt, es), ids);
  }

  lemma LepSequentialRemovesCta(es: seq<Element>, fmt: CanvasFormat, ids: seq<Id>)
    requires Find(es, IsCta).Some? && |ids| == |LepOps(fmt, es)|
    requires forall k :: 0 <= k < |ids| ==> ids[k] != Find(es, IsCta).value.id
    ensures forall e :: e in RunSequential(es, fmt, LepOps(fmt, es), ids) ==> e.id != Find(es, IsCta).value.id
  {
    var cta := Find(es, IsCta).value;
    var ops := LepOps(fmt, es);
    var cur := Deleted(es, cta.id);
    assert RunSequential(es, fmt, ops, ids) == RunSequential(cur, fmt, ops[1..], ids[1..]);
    assert ops[1..] == LepAdds(fmt);
    SequentialAddsKeepAbsent(cur, fmt, ops[1..], ids[1..], cta.id);
  }

  // ---------------------------------------------------------------------------------
  // What the builders produce, run in order.

  /** The subtype of a tile variant's square or roundel. */
  function TileSubtype(v: TileVariant): Subtype
  {
    match v
    case ClubcardTile => ValueTileClubcard
    case NewTile => ValueTileNew
    case WhiteTile => ValueTileWhite
  }

  /** A locked element spanning the tile's width inside the tile's frame, 40 units in
      from the bottom-right corner. */
  predicate InTileFrame(e: Element, fmt: CanvasFormat)
  {
    e.locked && e.x == fmt.width - TileSize - 40 && e.width == TileSize &&
    fmt.height - TileSize - 40 <= e.y && 0 <= e.height && e.y + e.height <= fmt.height - 40
  }

  /** The first element of a value tile is the locked 250-unit tile at z `max + 50`. */
  lemma TileSquare(v: TileVariant, fmt: CanvasFormat, es: seq<Element>, id: Id)
    ensures var e := Build(ValueTileOps(v, fmt, es)[0], fmt, id, es);
      InTileFrame(e, fmt) && e.kind == Shape && e.subtype == Some(TileSubtype(v)) &&
      e.y + TileSize + 40 == fmt.height && e.height == TileSize && e.style.zIndex == Some(MaxZ(es) + 50)
  {
    match v
    case ClubcardTile =>
    case NewTile =>
    case WhiteTile =>
  }

  /** Every later element of a value tile is a locked plain text label inside the tile's
      frame at z `max + 51`. */
  lemma TileLabel(v: TileVariant, fmt: CanvasFormat, es: seq<Element>, id: Id, k: nat)
    requires 0 < k < |ValueTileOps(v, fmt, es)|
    ensures var e := Build(ValueTileOps(v, fmt, es)[k], fmt, id, es);
      InTileFrame(e, fmt) && e.kind == Text && e.subtype == Some(NoSubtype) &&
      e.style.zIndex == Some(MaxZ(es) + 51)
  {
    match v
    case ClubcardTile =>
      assert k == 1 || k == 2 || k == 3;
    case NewTile =>
    case WhiteTile =>
  }

  /** A plain text caption inside a value tile's frame and one z-index above it intrudes
      on it. */
  lemma LabelOnTile(caption: Element, tile: Element, v: TileVariant, fmt: CanvasFormat, z: int)
    requires InTileFrame(caption, fmt) && InTileFrame(tile, fmt)
    requires caption.kind == Text && caption.subtype == Some(NoSubtype) && caption.style.zIndex == Some(z + 1)
    requires tile.subtype == Some(TileSubtype(v)) && tile.style.zIndex == Some(z) && z >= 50
    requires tile.y + TileSize + 40 == fmt.height && tile.height == TileSize
    ensures !CollisionExempt(caption, fmt) && IsProtected(tile) && Intrudes(caption, tile)
  {
    match v
    case ClubcardTile =>
    case NewTile =>
    case WhiteTile =>
  }

  /** A value tile run in order appends the elements it builds against the list it
      started from. */
  lemma TileRun(v: TileVariant, es: seq<Element>, fmt: CanvasFormat, ids: seq<Id>)
    requires |ids| == |ValueTileOps(v, fmt, es)|
    ensures var ops := ValueTileOps(v, fmt, es);
      RunSequential(es, fmt, ops, ids) == es + Built(fmt, ops, ids, es)
  {
    var ops := ValueTileOps(v, fmt, es);
    assert FixedZ(ops);
    FixedZAddsAppend(es, fmt, ops, ids, es);
  }

  /** Any value tile run in order: a locked 250-unit square or roundel of its variant's
      subtype, 40 units in from the bottom-right corner at z `max + 50`, so above every
      existing element; after it come its locked text labels at z `max + 51`. */
  lemma ValueTilePlacement(v: TileVariant, es: seq<Element>, fmt: CanvasFormat, ids: seq<Id>)
    requires |ids| == |ValueTileOps(v, fmt, es)|
    ensures var s := RunSequential(es, fmt, ValueTileOps(v, fmt, es), ids);
      |s| == |es| + |ValueTileOps(v, fmt, es)| && s[..|es|] == es
    ensures var s := RunSequential(es, fmt, ValueTileOps(v, fmt, es), ids);
      s[|es|].kind == Shape && s[|es|].subtype == Some(TileSubtype(v)) && s[|es|].locked &&
      s[|es|].width == TileSize && s[|es|].height == TileSize &&
      s[|es|].x + s[|es|].width + 40 == fmt.width && s[|es|].y + s[|es|].height + 40 == fmt.height &&
      ZOf(s[|es|]) == MaxZ(es) + 50 && forall i :: 0 <= i < |es| ==> ZOf(es[i]) < ZOf(s[|es|])
    ensures var s := RunSequential(es, fmt, ValueTileOps(v, fmt, es), ids);
      forall k :: |es| < k < |s| ==> s[k].kind == Text && s[k].locked && ZOf(s[k]) == MaxZ(es) + 51
  {
    var ops := ValueTileOps(v, fmt, es);
    TileRun(v, es, fmt, ids);
    var els := Built(fmt, ops, ids, es);
    var s := es + els;
    assert s[..|es|] == es;
    BuiltAt(fmt, ops, ids, es, 0);
    assert s[|es|] == els[0];
    TileSquare(v, fmt, es, ids[0]);
    forall k | |es| < k < |s|
      ensures s[k].kind == Text && s[k].locked && ZOf(s[k]) == MaxZ(es) + 51
    {
      BuiltAt(fmt, ops, ids, es, k - |es|);
      assert s[k] == els[k - |es|];
      TileLabel(v, fmt, es, ids[k - |es|], k - |es|);
    }
  }

  /** Each label of any value tile overlaps the tile from one z-index higher, so the
      collision rule counts every label as an intrusion on its own tile. */
  lemma TileLabelsIntrude(v: TileVariant, es: seq<Element>, fmt: CanvasFormat, ids: seq<Id>)
    requires |ids| == |ValueTileOps(v, fmt, es)|
    ensures var s := RunSequential(es, fmt, ValueTileOps(v, fmt, es), ids);
      forall k :: |es| < k < |s| ==> IntrudingPair(s, fmt, k, |es|)
  {
    var ops := ValueTileOps(v, fmt, es);
    TileRun(v, es, fmt, ids);
    var s := es + Built(fmt, ops, ids, es);
    BuiltAt(fmt, ops, ids, es, 0);
    assert s[|es|] == Build(ops[0], fmt, ids[0], es);
    forall k | |es| < k < |s|
      ensures IntrudingPair(s, fmt, k, |es|)
    {
      LabelIntrudes(v, s, fmt, es, ops, ids, k - |es|);
    }
  }

  /** The `k`-th element of a value tile, a label, intrudes on the tile. */
  lemma LabelIntrudes(v: TileVariant, s: seq<Element>, fmt: CanvasFormat, es: seq<Element>, ops: seq<Op>,
                      ids: seq<Id>, k: nat)
    requires ops == ValueTileOps(v, fmt, es) && |ids| == |ops| && 1 <= k < |ops|
    requires s == es + Built(fmt, ops, ids, es) && s[|es|] == Build(ops[0], fmt, ids[0], es)
    ensures IntrudingPair(s, fmt, |es| + k, |es|)
  {
    BuiltAt(fmt, ops, ids, es, k);
    assert s[|es| + k] == Build(ops[k], fmt, ids[k], es);
    TileSquare(v, fmt, es, ids[0]);
    TileLabel(v, fmt, es, ids[k], k);
    LabelOnTile(s[|es| + k], s[|es|], v, fmt, MaxZ(es) + 50);
  }

  /** The elements a list of adds builds against the list `base`. */
  function Built(fmt: CanvasFormat, ops: seq<Op>, ids: seq<Id>, base: seq<Element>): (r: seq<Element>)
    requires |ids| == |ops| && AllAdds(ops)
    ensures |r| == |ops|
    decreases |ops|
  {
    if ops == [] then []
    else
      [Build(ops[0], fmt, ids[0], base)] + Built(fmt, ops[1..], ids[1..], base)
  }

  /** The `k`-th built element is the `k`-th add built against `base`. */
  lemma {:induction false} BuiltAt(fmt: CanvasFormat, ops: seq<Op>, ids: seq<Id>, base: seq<Element>, k: nat)
    requires |ids| == |ops| && AllAdds(ops) && k < |ops|
    ensures Built(fmt, ops, ids, base)[k] == Build(ops[k], fmt, ids[k], base)
    decreases k
  {
    if k > 0 {
      BuiltAt(fmt, ops[1..], ids[1..], base, k - 1);
    }
  }

  predicate FixedZ(ops: seq<Op>)
  {
    forall k :: 0 <= k < |ops| ==> ops[k].Add? && ops[k].config.style.zIndex.Some?
  }

  /** Adds that all carry explicit z-indices, run in order, append exactly the elements
      each would build against any fixed list. */
  lemma {:induction false} FixedZAddsAppend(cur: seq<Element>, fmt: CanvasFormat, ops: seq<Op>, ids: seq<Id>,
                                            base: seq<Element>)
    requires |ids| == |ops| && FixedZ(ops)
    ensures RunSequential(cur, fmt, ops, ids) == cur + Built(fmt, ops, ids, base)
    decreases |ops|
  {
    if ops != [] {
      var e := Build(ops[0], fmt, ids[0], base);
      BuildFixedZ(ops[0], fmt, ids[0], cur, base);
      assert Step(cur, fmt, ops[0], ids[0]) == cur + [e];
      assert FixedZ(ops[1..]);
      var rest := Built(fmt, ops[1..], ids[1..], base);
      FixedZAddsAppend(cur + [e], fmt, ops[1..], ids[1..], base);
      assert Built(fmt, ops, ids, base) == [e] + rest;
      ConcatAssoc(cur, [e], rest);
    }
  }

  /** The drinkaware lock-up, added to a canvas without one, passes the lock-up rule. */
  lemma DrinkawarePassesRule(es: seq<Element>, fmt: CanvasFormat, id: Id, hasAlcohol: bool)
    requires forall e :: e in es ==> !IsDrinkaware(e)
    ensures AlcoholRule(RunSequential(es, fmt, DrinkawareOps(fmt), [id]), hasAlcohol) == []
  {
    var d := Build(DrinkawareOps(fmt)[0], fmt, id, es);
    assert RunSequential(es, fmt, DrinkawareOps(fmt), [id]) == es + [d];
    FindFirst(es + [d], IsDrinkaware, |es|);
  }

  /** The legal line as `addTag('legal')` adds it to `es`. */
  function LegalTagElement(fmt: CanvasFormat, id: Id, es: seq<Element>): Element
  {
    Build(TagOps(LegalTag, fmt)[0], fmt, id, es)
  }

  lemma LegalTagRun(es: seq<Element>, fmt: CanvasFormat, id: Id)
    ensures RunSequential(es, fmt, TagOps(LegalTag, fmt), [id]) == es + [LegalTagElement(fmt, id, es)]
  {
  }

  /** The legal line added to any canvas satisfies both clubcard text tests, so the
      clubcard rule is silent. */
  lemma LegalTagSatisfiesClubcard(es: seq<Element>, fmt: CanvasFormat, id: Id)
    ensures var s := RunSequential(es, fmt, TagOps(LegalTag, fmt), [id]);
      ClubcardRule(s, TextContent(s)) == []
  {
    var t := LegalTagElement(fmt, id, es);
    LegalTagRun(es, fmt, id);
    var texts := TextContent(es + [t]);
    LegalTagLastText(es, fmt, id);
    LegalLineHasDate();
    LegalLineHasApp();
    assert AnyEndsDate(texts) && AnyAppRequired(texts);
  }

  /** The legal line is the last text content once the tag is added. */
  lemma LegalTagLastText(es: seq<Element>, fmt: CanvasFormat, id: Id)
    ensures var texts := TextContent(es + [LegalTagElement(fmt, id, es)]);
      |texts| > 0 && texts[|texts| - 1] == LegalLine
  {
    var t := LegalTagElement(fmt, id, es);
    TextElementsAppend(es, t);
    assert t.kind == Text && t.content == Some(LegalLine);
  }

  /** The legal line's 14-unit font is flagged by the font rule. */
  lemma LegalTagSmallFont(es: seq<Element>, fmt: CanvasFormat, id: Id)
    ensures SmallFont(Some(14)) in Fonts(RunSequential(es, fmt, TagOps(LegalTag, fmt), [id]))
  {
    var t := LegalTagElement(fmt, id, es);
    LegalTagRun(es, fmt, id);
    var s := es + [t];
    FontRuleExact(s);
    assert t in s && t.kind == Text && FontSizeOf(t) < 20;
  }

  /** On the story format the legal line, 50 units above the bottom edge with the default
      100-unit height, reaches into the bottom band. */
  lemma LegalTagInBottomBand(es: seq<Element>, id: Id)
    ensures BottomSafeZone in SafeZones(RunSequential(es, Story, TagOps(LegalTag, Story), [id]), Story)
  {
    var t := LegalTagElement(Story, id, es);
    LegalTagRun(es, Story, id);
    var s := es + [t];
    SafeZoneRuleExact(s, Story);
    assert s[|es|] == t && !SafeZoneExempt(t, Story) && InBottomBand(t, Story);
  }

  /** The text elements of a list grown by one element. */
  lemma {:induction false} TextElementsAppend(es: seq<Element>, e: Element)
    ensures TextElements(es + [e]) == TextElements(es) + (if e.kind == Text then [e] else [])
  {
    if es != [] {
      assert (es + [e])[1..] == es[1..] + [e];
      TextElementsAppend(es[1..], e);
    }
  }

  /** The Low Everyday Price layout: the backdrop is a locked z-0 element covering the
      format, and the logo sits 10 units right of the packshot without touching it. */
  lemma LepLayout(fmt: CanvasFormat, ids: seq<Id>, es: seq<Element>)
    requires |ids| == 5
    ensures var ops := LepAdds(fmt);
      var bg := Build(ops[0], fmt, ids[0], es);
      var p := Build(ops[2], fmt, ids[2], es);
      var logo := Build(ops[3], fmt, ids[3], es);
      bg.locked && ZOf(bg) == 0 && bg.x == 0 && bg.y == 0 && bg.width == fmt.width && bg.height == fmt.height &&
      IsLockedBackdrop(bg) &&
      logo.x == p.x + p.width + 10 && !IsOverlapping(p, logo) && !logo.locked
  {
  }

  // ---------------------------------------------------------------------------------
  // The builders against the shell's state, one call after the other.

  /** Runs a recipe through the shell's handlers in order. The ids are the generated
      ones: distinct, and new to the list. */
  method ApplyRecipe(ed: Editor, ops: seq<Op>, ids: seq<Id>)
    requires |ids| == |ops|
    requires forall k :: 0 <= k < |ops| && ops[k].Add? ==> ops[k].kind != Group
    requires forall j, k :: 0 <= j < k < |ids| ==> ids[j] != ids[k]
    requires forall k, i :: 0 <= k < |ids| && 0 <= i < |ed.elements| ==> ed.elements[i].id != ids[k]
    modifies ed
    ensures ed.elements == RunSequential(old(ed.elements), old(ed.format), ops, ids)
    ensures ed.format == old(ed.format)
  {
    for k := 0 to |ops|
      invariant ed.format == old(ed.format)
      invariant RunSequential(ed.elements, ed.format, ops[k..], ids[k..]) ==
        RunSequential(old(ed.elements), old(ed.format), ops, ids)
      invariant forall j, i :: k <= j < |ids| && 0 <= i < |ed.elements| ==> ed.elements[i].id != ids[j]
    {
      ghost var before := ed.elements;
      assert ops[k..][1..] == ops[k + 1..] && ids[k..][1..] == ids[k + 1..];
      match ops[k]
      case Add(kind, subtype, c) =>
        ed.AddElement(kind, subtype, c, ids[k]);
      case Remove(rid) =>
        ed.DeleteElement(rid);
        assert forall e :: e in ed.elements ==> e in before;
    }
  }
}
