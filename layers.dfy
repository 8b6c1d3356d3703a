/** The layer manager (`handleLayerOrder`, components/Tools.tsx): stack the elements by
    z-index with ties broken by list position, swap the selected element with its
    neighbour unless that neighbour is the locked backdrop, renumber every element to
    `(position + 1) * 10` with the backdrop pinned to 0, and emit a style update for
    each element whose z-index changes. */
module Layers {
  import opened Types
  import opened Editor

  datatype Direction = Front | Back

  /** A style update `onUpdateElement(id, { style: { ...el.style, zIndex: newZ } })`. */
  datatype Restyle = Restyle(id: Id, style: Style)

  // ---------------------------------------------------------------------------------
  // The stacking order.

  /** The sort comparator: z-index ascending (absent = 0), then list position. */
  predicate Before(es: seq<Element>, i: nat, j: nat)
    requires i < |es| && j < |es|
  {
    ZOf(es[i]) < ZOf(es[j]) || (ZOf(es[i]) == ZOf(es[j]) && i < j)
  }

  predicate InRange(es: seq<Element>, s: seq<nat>)
  {
    forall k :: 0 <= k < |s| ==> s[k] < |es|
  }

  /** `s` lists positions of `es` in strictly increasing comparator order (so without
      repeats). */
  predicate Ascending(es: seq<Element>, s: seq<nat>)
    requires InRange(es, s)
  {
    forall a, b :: 0 <= a < b < |s| ==> Before(es, s[a], s[b])
  }

  lemma BeforeTotal(es: seq<Element>, i: nat, j: nat)
    requires i < |es| && j < |es| && i != j
    ensures Before(es, i, j) != Before(es, j, i)
  {
  }

  lemma AscendingTail(es: seq<Element>, s: seq<nat>)
    requires InRange(es, s) && Ascending(es, s) && s != []
    ensures InRange(es, s[1..]) && Ascending(es, s[1..])
  {
    forall a, b | 0 <= a < b < |s[1..]|
      ensures Before(es, s[1..][a], s[1..][b])
    {
      assert s[1..][a] == s[a + 1] && s[1..][b] == s[b + 1];
    }
  }

  /** Insert position `i` into an ascending list of positions. */
  function Insert(es: seq<Element>, i: nat, s: seq<nat>): (r: seq<nat>)
    requires i < |es| && InRange(es, s)
    ensures |r| == |s| + 1 && InRange(es, r)
    ensures forall x :: x in r <==> x == i || x in s
  {
    if s == [] then [i]
    else if Before(es, i, s[0]) then [i] + s
    else [s[0]] + Insert(es, i, s[1..])
  }

  lemma {:induction false} InsertAscending(es: seq<Element>, i: nat, s: seq<nat>)
    requires i < |es| && InRange(es, s) && Ascending(es, s) && i !in s
    ensures Ascending(es, Insert(es, i, s))
    decreases |s|
  {
    if s != [] && !Before(es, i, s[0]) {
      BeforeTotal(es, i, s[0]);
      AscendingTail(es, s);
      InsertAscending(es, i, s[1..]);
      var t := Insert(es, i, s[1..]);
      forall b | 0 <= b < |t|
        ensures Before(es, s[0], t[b])
      {
        assert t[b] in t;
        if t[b] != i {
          var k :| 0 <= k < |s[1..]| && s[1..][k] == t[b];
          assert s[k + 1] == t[b];
        }
      }
      AscendingCons(es, s[0], t);
    }
  }

  /** A position before every member of an ascending list can head it. */
  lemma AscendingCons(es: seq<Element>, x: nat, t: seq<nat>)
    requires x < |es| && InRange(es, t) && Ascending(es, t)
    requires forall b :: 0 <= b < |t| ==> Before(es, x, t[b])
    ensures InRange(es, [x] + t) && Ascending(es, [x] + t)
  {
    var r := [x] + t;
    forall a, b | 0 <= a < b < |r| ensures Before(es, r[a], r[b]) {
      assert r[b] == t[b - 1];
      if a > 0 {
        assert r[a] == t[a - 1];
      }
    }
  }

  /** The order `[...elements].sort(...)` produces, as list positions: the first `n`
      positions sorted by the comparator (the sort is insertion of each position in turn). */
  function SortPrefix(es: seq<Element>, n: nat): (r: seq<nat>)
    requires n <= |es|
    ensures |r| == n && InRange(es, r) && Ascending(es, r)
    ensures forall x :: x in r <==> 0 <= x < n
  {
    if n == 0 then []
    else
      var s := SortPrefix(es, n - 1);
      InsertAscending(es, n - 1, s);
      Insert(es, n - 1, s)
  }

  /** The full stacking order: a permutation of the positions, ascending by z-index and,
      for equal z, by position. */
  function SortOrder(es: seq<Element>): (r: seq<nat>)
    ensures |r| == |es| && InRange(es, r) && Ascending(es, r)
    ensures forall x :: x in r <==> 0 <= x < |es|
  {
    SortPrefix(es, |es|)
  }

  /** The elements in stacking order. */
  function Stacked(es: seq<Element>): (r: seq<Element>)
    ensures |r| == |es|
  {
    var order := SortOrder(es);
    seq(|es|, k requires 0 <= k < |es| => es[order[k]])
  }

  /** Two ascending permutations of the same positions are equal: the stacking order is
      the only one the comparator allows. */
  lemma {:induction false} AscendingUnique(es: seq<Element>, s: seq<nat>, t: seq<nat>)
    requires InRange(es, s) && InRange(es, t) && Ascending(es, s) && Ascending(es, t)
    requires |s| == |t| && forall x :: x in s <==> x in t
    ensures s == t
    decreases |s|
  {
    if s != [] {
      // Both heads are the comparator-least position.
      HeadLeast(es, s, t[0]);
      HeadLeast(es, t, s[0]);
      BeforeAntisymmetric(es, s[0], t[0]);
      var s', t' := s[1..], t[1..];
      AscendingTail(es, s);
      AscendingTail(es, t);
      TailMembers(es, s, t);
      TailMembers(es, t, s);
      AscendingUnique(es, s', t');
      assert s == [s[0]] + s' && t == [t[0]] + t';
    }
  }

  /** The head of an ascending list comes first among its members. */
  lemma HeadLeast(es: seq<Element>, s: seq<nat>, x: nat)
    requires InRange(es, s) && Ascending(es, s) && x in s
    ensures x < |es| && (x == s[0] || Before(es, s[0], x))
  {
    var k :| 0 <= k < |s| && s[k] == x;
  }

  lemma BeforeAntisymmetric(es: seq<Element>, i: nat, j: nat)
    requires i < |es| && j < |es|
    ensures Before(es, i, j) && Before(es, j, i) ==> i == j
  {
  }

  /** With equal heads, whatever follows the head of `s` follows the head of `t`. */
  lemma TailMembers(es: seq<Element>, s: seq<nat>, t: seq<nat>)
    requires InRange(es, s) && Ascending(es, s) && s != [] && t != [] && s[0] == t[0]
    requires forall x :: x in s ==> x in t
    ensures forall x :: x in s[1..] ==> x in t[1..]
  {
    forall x | x in s[1..]
      ensures x in t[1..]
    {
      var a :| 0 <= a < |s[1..]| && s[1..][a] == x;
      assert s[a + 1] == x && Before(es, s[0], s[a + 1]);
      assert x in t;
      var b :| 0 <= b < |t| && t[b] == x;
      assert b != 0;
      assert t[1..][b - 1] == x;
    }
  }

  // ---------------------------------------------------------------------------------
  // The move and the renumbering.

  /** The outcome of the guards: either the move is refused, or the selected element at
      stacking position `current` swaps with its neighbour at `target`. */
  datatype Plan = Refused | Swap(current: nat, target: nat)

  function PlanMove(es: seq<Element>, sel: Option<Id>, dir: Direction): (p: Plan)
    ensures p.Swap? ==> p.current < |es| && p.target < |es|
    ensures p.Swap? ==> if dir == Front then p.target == p.current + 1 else p.target + 1 == p.current
    ensures p.Swap? ==> sel.Some? && Stacked(es)[p.current].id == sel.value
    ensures p.Swap? ==> !IsLockedBackdrop(Stacked(es)[p.target])
  {
    match Selected(es, sel)
    case None => Refused
    case Some(selected) => PlanOn(Stacked(es), selected.id, dir)
  }

  /** The guards on the stacked list: the selected id must be found, and its neighbour
      must exist and not be a locked backdrop. */
  function PlanOn(stacked: seq<Element>, id: Id, dir: Direction): (p: Plan)
    ensures p.Swap? ==> p.current < |stacked| && p.target < |stacked|
    ensures p.Swap? ==> if dir == Front then p.target == p.current + 1 else p.target + 1 == p.current
    ensures p.Swap? ==> stacked[p.current].id == id && !IsLockedBackdrop(stacked[p.target])
  {
    match IndexOfId(stacked, id)
    case None => Refused
    case Some(current) =>
      var target := if dir == Front then current + 1 else current - 1;
      if target < 0 || target >= |stacked| then Refused
      else if IsLockedBackdrop(stacked[target]) then Refused
      else Swap(current, target)
  }

  function SwapAt<T>(s: seq<T>, i: nat, j: nat): (r: seq<T>)
    requires i < |s| && j < |s|
    ensures |r| == |s| && r[i] == s[j] && r[j] == s[i]
    ensures forall k :: 0 <= k < |s| && k != i && k != j ==> r[k] == s[k]
  {
    s[i := s[j]][j := s[i]]
  }

  /** The z-index the renumbering gives the element at stacking position `k`. */
  function NewZ(e: Element, k: nat): (z: int)
    ensures z == 0 <==> IsLockedBackdrop(e)
    ensures !IsLockedBackdrop(e) ==> z > 0 && z % 10 == 0 && z / 10 == k + 1
  {
    if IsLockedBackdrop(e) then 0 else (k + 1) * 10
  }

  function RestyleAt(sw: seq<Element>, k: nat): Restyle
    requires k < |sw|
  {
    Restyle(sw[k].id, sw[k].style.(zIndex := Some(NewZ(sw[k], k))))
  }

  /** The updates the `forEach` over the first `n` stacking positions emits. */
  function Changes(sw: seq<Element>, n: nat): seq<Restyle>
    requires n <= |sw|
  {
    if n == 0 then []
    else Changes(sw, n - 1) + (if Renumbered(sw, n - 1) then [RestyleAt(sw, n - 1)] else [])
  }

  /** Everything `handleLayerOrder` sends to `onUpdateElement`, in order. */
  function LayerUpdates(es: seq<Element>, sel: Option<Id>, dir: Direction): seq<Restyle>
  {
    match PlanMove(es, sel, dir)
    case Refused => []
    case Swap(current, target) => Changes(SwapAt(Stacked(es), current, target), |es|)
  }

  /** `[...elements].sort(...)` into a fresh array: the elements in stacking order. */
  method SortedCopy(es: seq<Element>) returns (sorted: array<Element>)
    ensures fresh(sorted) && sorted[..] == Stacked(es)
  {
    var order := SortOrder(es);
    sorted := new Element[|es|](k requires 0 <= k < |es| => es[order[k]]);
    assert sorted[..] == Stacked(es) by {
      forall k | 0 <= k < |es| ensures sorted[k] == Stacked(es)[k] {
      }
    }
  }

  /** `sorted.findIndex(el => el.id === id)` over an array. */
  method FindPosition(a: array<Element>, id: Id) returns (i: nat)
    ensures i <= a.Length
    ensures i == a.Length ==> IndexOfId(a[..], id).None?
    ensures i < a.Length ==> IndexOfId(a[..], id) == Some(i)
  {
    i := 0;
    while i < a.Length && a[i].id != id
      invariant i <= a.Length
      invariant forall m :: 0 <= m < i ==> a[m].id != id
    {
      i := i + 1;
    }
    if i < a.Length {
      var r := IndexOfId(a[..], id);
      assert a[..][i].id == id;
      assert r.Some? && r.value <= i;
    }
  }

  /** The `forEach` over the reordered array: renumber each position and emit an update
      where the z-index changes. */
  method EmitRenumbering(a: array<Element>) returns (updates: seq<Restyle>)
    ensures updates == Changes(a[..], a.Length)
  {
    updates := [];
    for index := 0 to a.Length
      invariant updates == Changes(a[..], index)
    {
      var el := a[index];
      var newZ := (index + 1) * 10;
      if el.locked && (el.style.zIndex == Some(0) || Contains(el.id, "bg")) {
        newZ := 0;
      }
      if ZOf(el) != newZ {
        updates := updates + [Restyle(el.id, el.style.(zIndex := Some(newZ)))];
      }
    }
  }

  /** `handleLayerOrder`: copies the elements into an array in stacking order, finds the
      selected element, swaps it with its neighbour in place and walks the array emitting
      the z-index updates. */
  method LayerOrder(es: seq<Element>, sel: Option<Id>, dir: Direction) returns (updates: seq<Restyle>)
    ensures updates == LayerUpdates(es, sel, dir)
  {
    updates := [];
    var selected := Selected(es, sel);
    if selected.None? {
      return;
    }
    var sorted := SortedCopy(es);
    var plan := PlanOnArray(sorted, selected.value.id, dir);
    if plan.Refused? {
      return;
    }
    SwapInPlace(sorted, plan.current, plan.target);
    updates := EmitRenumbering(sorted);
  }

  /** The guards of `handleLayerOrder` on the sorted array. */
  method PlanOnArray(sorted: array<Element>, id: Id, dir: Direction) returns (plan: Plan)
    ensures plan == PlanOn(sorted[..], id, dir)
  {
    var current := FindPosition(sorted, id);
    if current == sorted.Length {
      return Refused;
    }
    var target: int := if dir == Front then current + 1 else current as int - 1;
    if target < 0 || target >= sorted.Length {
      return Refused;
    }
    var targetEl := sorted[target];
    if targetEl.locked && (targetEl.style.zIndex == Some(0) || Contains(targetEl.id, "bg")) {
      return Refused;
    }
    return Swap(current, target);
  }

  /** The in-place swap through a temporary. */
  method SwapInPlace(a: array<Element>, i: nat, j: nat)
    requires i < a.Length && j < a.Length
    modifies a
    ensures a[..] == SwapAt(old(a[..]), i, j)
  {
    var temp := a[i];
    a[i] := a[j];
    a[j] := temp;
  }

  // ---------------------------------------------------------------------------------
  // Applying the updates through `handleUpdateElement`.

  function StylePatch(s: Style): Patch
  {
    EmptyPatch.(style := Some(s))
  }

  /** The element list after the emitted updates are applied one after another. */
  function ApplyRestyles(es: seq<Element>, ups: seq<Restyle>): seq<Element>
    decreases |ups|
  {
    if ups == [] then es
    else
      var last := ups[|ups| - 1];
      Updated(ApplyRestyles(es, ups[..|ups| - 1]), last.id, StylePatch(last.style))
  }

  predicate DistinctIds(ups: seq<Restyle>)
  {
    forall a, b :: 0 <= a < b < |ups| ==> ups[a].id != ups[b].id
  }

  /** With distinct update ids, each element takes the style of the update carrying its
      id, if there is one, and is otherwise untouched. */
  lemma {:induction false} ApplyRestylesAt(es: seq<Element>, ups: seq<Restyle>)
    requires DistinctIds(ups)
    ensures |ApplyRestyles(es, ups)| == |es|
    ensures forall i, m :: 0 <= i < |es| && 0 <= m < |ups| && ups[m].id == es[i].id ==>
      ApplyRestyles(es, ups)[i] == es[i].(style := ups[m].style)
    ensures forall i :: 0 <= i < |es| && (forall m :: 0 <= m < |ups| ==> ups[m].id != es[i].id) ==>
      ApplyRestyles(es, ups)[i] == es[i]
    decreases |ups|
  {
    RestylesKeepIds(es, ups);
    forall i, m | 0 <= i < |es| && 0 <= m < |ups| && ups[m].id == es[i].id
      ensures ApplyRestyles(es, ups)[i] == es[i].(style := ups[m].style)
    {
      RestyleHit(es, ups, i, m);
    }
    forall i | 0 <= i < |es| && (forall m :: 0 <= m < |ups| ==> ups[m].id != es[i].id)
      ensures ApplyRestyles(es, ups)[i] == es[i]
    {
      RestyleMiss(es, ups, i);
    }
  }

  /** The updates touch styles only: length and ids are kept. */
  lemma {:induction false} RestylesKeepIds(es: seq<Element>, ups: seq<Restyle>)
    ensures |ApplyRestyles(es, ups)| == |es|
    ensures forall i :: 0 <= i < |es| ==> ApplyRestyles(es, ups)[i].id == es[i].id
    decreases |ups|
  {
    if ups != [] {
      RestylesKeepIds(es, ups[..|ups| - 1]);
    }
  }

  /** An element that some update names ends with that update's style. */
  lemma {:induction false} RestyleHit(es: seq<Element>, ups: seq<Restyle>, i: nat, m: nat)
    requires DistinctIds(ups) && i < |es| && m < |ups| && ups[m].id == es[i].id
    ensures |ApplyRestyles(es, ups)| == |es| && ApplyRestyles(es, ups)[i] == es[i].(style := ups[m].style)
    decreases |ups|
  {
    var init := ups[..|ups| - 1];
    var last := ups[|ups| - 1];
    RestylesKeepIds(es, init);
    if m < |ups| - 1 {
      DistinctPrefix(ups);
      assert init[m] == ups[m];
      RestyleHit(es, init, i, m);
      RestyleLastMiss(es, ups, i);
    } else {
      forall k | 0 <= k < |init| ensures init[k].id != es[i].id {
        assert init[k] == ups[k];
      }
      RestyleMiss(es, init, i);
      RestyleLastHit(es, ups, i);
    }
  }

  lemma DistinctPrefix(ups: seq<Restyle>)
    requires DistinctIds(ups) && ups != []
    ensures DistinctIds(ups[..|ups| - 1])
  {
    var init := ups[..|ups| - 1];
    forall a, b | 0 <= a < b < |init| ensures init[a].id != init[b].id {
      assert init[a] == ups[a] && init[b] == ups[b];
    }
  }

  /** The last update does not touch an element with another id. */
  lemma RestyleLastMiss(es: seq<Element>, ups: seq<Restyle>, i: nat)
    requires ups != [] && i < |es| && i < |ApplyRestyles(es, ups[..|ups| - 1])|
    requires ApplyRestyles(es, ups[..|ups| - 1])[i].id != ups[|ups| - 1].id
    ensures |ApplyRestyles(es, ups)| == |ApplyRestyles(es, ups[..|ups| - 1])|
    ensures ApplyRestyles(es, ups)[i] == ApplyRestyles(es, ups[..|ups| - 1])[i]
  {
  }

  /** The last update gives an element with its id that update's style. */
  lemma RestyleLastHit(es: seq<Element>, ups: seq<Restyle>, i: nat)
    requires ups != [] && i < |es| && |ApplyRestyles(es, ups[..|ups| - 1])| == |es|
    requires ApplyRestyles(es, ups[..|ups| - 1])[i] == es[i] && es[i].id == ups[|ups| - 1].id
    ensures |ApplyRestyles(es, ups)| == |es|
    ensures ApplyRestyles(es, ups)[i] == es[i].(style := ups[|ups| - 1].style)
  {
  }

  /** An element that no update names is untouched. */
  lemma {:induction false} RestyleMiss(es: seq<Element>, ups: seq<Restyle>, i: nat)
    requires i < |es| && forall m :: 0 <= m < |ups| ==> ups[m].id != es[i].id
    ensures |ApplyRestyles(es, ups)| == |es| && ApplyRestyles(es, ups)[i] == es[i]
    decreases |ups|
  {
    if ups != [] {
      var init := ups[..|ups| - 1];
      RestylesKeepIds(es, init);
      RestyleMiss(es, init, i);
    }
  }

  /** The element with its z-index set to `z`, or unchanged if it already reads as `z`. */
  function SetZ(e: Element, z: int): Element
  {
    if ZOf(e) == z then e else e.(style := e.style.(zIndex := Some(z)))
  }

  /** The stacking order after the swap, as list positions. */
  function SwappedOrder(es: seq<Element>, current: nat, target: nat): (r: seq<nat>)
    requires current < |es| && target < |es|
    ensures |r| == |es| && InRange(es, r)
    ensures forall x :: x in r <==> 0 <= x < |es|
    ensures forall a, b :: 0 <= a < |r| && 0 <= b < |r| && a != b ==> r[a] != r[b]
    ensures forall k :: 0 <= k < |es| ==> SwapAt(Stacked(es), current, target)[k] == es[r[k]]
  {
    var order := SortOrder(es);
    assert forall a, b :: 0 <= a < b < |order| ==> order[a] != order[b] by {
      forall a, b | 0 <= a < b < |order| ensures order[a] != order[b] {
        assert Before(es, order[a], order[b]);
      }
    }
    var r := SwapAt(order, current, target);
    forall x | 0 <= x < |es| ensures x in r {
      assert x in order;
      var k :| 0 <= k < |order| && order[k] == x;
      if k == current {
        assert r[target] == x;
      } else if k == target {
        assert r[current] == x;
      } else {
        assert r[k] == x;
      }
    }
    r
  }

  /** Whether the renumbering changes the z-index read at stacking position `k`. */
  predicate Renumbered(sw: seq<Element>, k: nat)
    requires k < |sw|
  {
    ZOf(sw[k]) != NewZ(sw[k], k)
  }

  /** `u` is the update for some renumbered position below `n`. */
  predicate EmittedFor(sw: seq<Element>, u: Restyle, n: nat)
    requires n <= |sw|
  {
    exists k :: 0 <= k < n && Renumbered(sw, k) && u == RestyleAt(sw, k)
  }

  /** Facts about the emitted updates: each is the renumbering of some position whose
      z-index actually changes, every such position is emitted, and (with unique ids)
      no id is emitted twice. */
  lemma ChangesExact(sw: seq<Element>, n: nat)
    requires n <= |sw|
    ensures forall m :: 0 <= m < |Changes(sw, n)| ==> EmittedFor(sw, Changes(sw, n)[m], n)
    ensures forall k :: 0 <= k < n && Renumbered(sw, k) ==> RestyleAt(sw, k) in Changes(sw, n)
    ensures UniqueIds(sw) ==> DistinctIds(Changes(sw, n))
  {
    ChangesSound(sw, n);
    forall k | 0 <= k < n && Renumbered(sw, k)
      ensures RestyleAt(sw, k) in Changes(sw, n)
    {
      ChangesComplete(sw, n, k);
    }
    if UniqueIds(sw) {
      ChangesDistinct(sw, n);
    }
  }

  /** Each emitted update is the renumbering of a position whose z-index changes. */
  lemma {:induction false} ChangesSound(sw: seq<Element>, n: nat)
    requires n <= |sw|
    ensures forall m :: 0 <= m < |Changes(sw, n)| ==> EmittedFor(sw, Changes(sw, n)[m], n)
  {
    if n > 0 {
      ChangesSound(sw, n - 1);
      var prev := Changes(sw, n - 1);
      var cur := Changes(sw, n);
      forall m | 0 <= m < |cur|
        ensures EmittedFor(sw, cur[m], n)
      {
        if m < |prev| {
          assert cur[m] == prev[m];
          var k :| 0 <= k < n - 1 && Renumbered(sw, k) && prev[m] == RestyleAt(sw, k);
          assert 0 <= k < n && Renumbered(sw, k) && cur[m] == RestyleAt(sw, k);
        } else {
          assert cur[m] == RestyleAt(sw, n - 1) && Renumbered(sw, n - 1);
        }
      }
    }
  }

  /** Each position below `n` whose z-index changes is emitted. */
  lemma {:induction false} ChangesComplete(sw: seq<Element>, n: nat, k: nat)
    requires k < n <= |sw| && Renumbered(sw, k)
    ensures RestyleAt(sw, k) in Changes(sw, n)
  {
    if k < n - 1 {
      ChangesComplete(sw, n - 1, k);
    } else {
      var cur := Changes(sw, n);
      assert cur[|cur| - 1] == RestyleAt(sw, k);
    }
  }

  /** With unique element ids no id is emitted twice. */
  lemma {:induction false} ChangesDistinct(sw: seq<Element>, n: nat)
    requires n <= |sw| && UniqueIds(sw)
    ensures DistinctIds(Changes(sw, n))
  {
    if n > 0 {
      ChangesDistinct(sw, n - 1);
      ChangesSound(sw, n - 1);
      var prev := Changes(sw, n - 1);
      var cur := Changes(sw, n);
      forall a, b | 0 <= a < b < |cur|
        ensures cur[a].id != cur[b].id
      {
        if b < |prev| {
          assert cur[a] == prev[a] && cur[b] == prev[b];
        } else {
          assert cur[a] == prev[a];
          assert EmittedFor(sw, prev[a], n - 1);
          var k :| 0 <= k < n - 1 && Renumbered(sw, k) && prev[a] == RestyleAt(sw, k);
          assert cur[b] == RestyleAt(sw, n - 1);
          assert sw[k].id != sw[n - 1].id;
        }
      }
    }
  }

  /** After a move that goes ahead and its updates are applied, every element keeps
      all its fields except that its z-index reads as the renumbered value of its new
      stacking position; ids are unique throughout. */
  lemma RestackResult(es: seq<Element>, sel: Option<Id>, dir: Direction)
    requires UniqueIds(es)
    requires PlanMove(es, sel, dir).Swap?
    ensures var plan := PlanMove(es, sel, dir);
      RenumberedAlong(es, SwappedOrder(es, plan.current, plan.target), ApplyRestyles(es, LayerUpdates(es, sel, dir)))
  {
    var plan := PlanMove(es, sel, dir);
    RestackAlong(es, plan.current, plan.target);
  }

  /** `RestackResult` for the positions the plan swaps. */
  lemma RestackAlong(es: seq<Element>, current: nat, target: nat)
    requires UniqueIds(es) && current < |es| && target < |es|
    ensures var sw := SwapAt(Stacked(es), current, target);
      RenumberedAlong(es, SwappedOrder(es, current, target), ApplyRestyles(es, Changes(sw, |sw|)))
  {
    var perm := SwappedOrder(es, current, target);
    var sw := SwapAt(Stacked(es), current, target);
    SwappedUnique(es, perm, sw);
    var ups := Changes(sw, |sw|);
    RestylesKeepIds(es, ups);
    forall k | 0 <= k < |es|
      ensures ApplyRestyles(es, ups)[perm[k]] == SetZ(es[perm[k]], NewZ(es[perm[k]], k))
    {
      RestyledPosition(es, perm, sw, k);
    }
  }

  /** Reordering a list with unique ids along a permutation keeps the ids unique. */
  lemma SwappedUnique(es: seq<Element>, perm: seq<nat>, sw: seq<Element>)
    requires UniqueIds(es) && |perm| == |sw| == |es| && InRange(es, perm)
    requires forall a, b :: 0 <= a < |perm| && 0 <= b < |perm| && a != b ==> perm[a] != perm[b]
    requires forall k :: 0 <= k < |es| ==> sw[k] == es[perm[k]]
    ensures UniqueIds(sw)
  {
    forall a, b | 0 <= a < b < |sw| ensures sw[a].id != sw[b].id {
      assert sw[a] == es[perm[a]] && sw[b] == es[perm[b]];
    }
  }

  /** `r` is `es` with the element at each stacking position `k` (the list position
      `perm[k]`, `perm` a permutation of the positions) renumbered for position `k`. */
  ghost predicate RenumberedAlong(es: seq<Element>, perm: seq<nat>, r: seq<Element>)
  {
    |perm| == |es| == |r| && InRange(es, perm) && (forall x :: x in perm <==> 0 <= x < |es|) &&
    forall k :: 0 <= k < |es| ==> r[perm[k]] == SetZ(es[perm[k]], NewZ(es[perm[k]], k))
  }

  /** One position of `RestackResult`: the element at stacking position `k` receives its
      own update if renumbered and none otherwise. */
  lemma RestyledPosition(es: seq<Element>, perm: seq<nat>, sw: seq<Element>, k: nat)
    requires |perm| == |sw| == |es| && k < |es| && InRange(es, perm)
    requires forall j :: 0 <= j < |es| ==> sw[j] == es[perm[j]]
    requires UniqueIds(sw)
    ensures var r := ApplyRestyles(es, Changes(sw, |sw|));
      |r| == |es| && r[perm[k]] == SetZ(es[perm[k]], NewZ(es[perm[k]], k))
  {
    var ups := Changes(sw, |sw|);
    var i := perm[k];
    ChangesExact(sw, |sw|);
    if Renumbered(sw, k) {
      var m :| 0 <= m < |ups| && ups[m] == RestyleAt(sw, k);
      assert ups[m].id == es[i].id;
      RestyleHit(es, ups, i, m);
    } else {
      forall m | 0 <= m < |ups| ensures ups[m].id != es[i].id {
        assert EmittedFor(sw, ups[m], |sw|);
        var k' :| 0 <= k' < |sw| && Renumbered(sw, k') && ups[m] == RestyleAt(sw, k');
        assert k' != k;
      }
      RestyleMiss(es, ups, i);
    }
  }

  // ---------------------------------------------------------------------------------
  // The backdrop stays at the bottom.

  /** The layering invariant: locked backdrops read as z 0, everything else as a
      positive z-index, so nothing stacks below a backdrop. */
  predicate Layered(es: seq<Element>)
  {
    forall i :: 0 <= i < |es| ==> Sits(es[i])
  }

  predicate Sits(e: Element)
  {
    if IsLockedBackdrop(e) then ZOf(e) == 0 else ZOf(e) > 0
  }

  /** Renumbering an element keeps its id and whether it is a backdrop, and leaves it
      sitting where the invariant wants it. */
  lemma RenumberedSits(e: Element, k: nat)
    ensures SetZ(e, NewZ(e, k)).id == e.id
    ensures IsLockedBackdrop(SetZ(e, NewZ(e, k))) == IsLockedBackdrop(e)
    ensures Sits(SetZ(e, NewZ(e, k)))
  {
  }

  /** The three refusals: no selection (or a selected id that is absent), a neighbour
      outside the list, or a neighbour that is a locked backdrop all emit nothing. */
  lemma RefusedMovesChangeNothing(es: seq<Element>, sel: Option<Id>, dir: Direction)
    ensures sel.None? || IndexOfId(es, sel.value).None? ==> LayerUpdates(es, sel, dir) == []
    ensures sel.Some? && IndexOfId(es, sel.value).Some? ==>
      var current := IndexOfId(Stacked(es), sel.value);
      current.Some? ==>
        var target := if dir == Front then current.value + 1 else current.value - 1;
        (target < 0 || target >= |es| || IsLockedBackdrop(Stacked(es)[target])) ==>
        LayerUpdates(es, sel, dir) == []
  {
    match sel
    case None =>
    case Some(id) =>
      match IndexOfId(es, id)
      case None =>
      case Some(i) =>
        assert Selected(es, sel) == Some(es[i]) && es[i].id == id;
        RefusedOn(Stacked(es), id, dir);
  }

  /** The guards of `PlanOn` refuse a neighbour outside the list or a locked backdrop. */
  lemma RefusedOn(stacked: seq<Element>, id: Id, dir: Direction)
    ensures var current := IndexOfId(stacked, id);
      current.Some? ==>
        var target := if dir == Front then current.value + 1 else current.value - 1;
        (target < 0 || target >= |stacked| || IsLockedBackdrop(stacked[target])) ==>
        PlanOn(stacked, id, dir) == Refused
  {
  }

  /** The guards let a move through exactly when the id is found and its neighbour in the
      chosen direction is in range and not a locked backdrop; the move then swaps the two. */
  lemma PlanOnExact(stacked: seq<Element>, id: Id, dir: Direction)
    ensures PlanOn(stacked, id, dir).Swap? <==>
      IndexOfId(stacked, id).Some? &&
      var c := IndexOfId(stacked, id).value;
      var t := if dir == Front then c + 1 else c - 1;
      0 <= t < |stacked| && !IsLockedBackdrop(stacked[t])
    ensures IndexOfId(stacked, id).Some? ==>
      var c := IndexOfId(stacked, id).value;
      var t := if dir == Front then c + 1 else c - 1;
      0 <= t < |stacked| && !IsLockedBackdrop(stacked[t]) ==> PlanOn(stacked, id, dir) == Swap(c, t)
  {
  }

  /** A move is planned on the stacked list for the selected id when that id is on the
      canvas, and refused otherwise; so a selected element whose neighbour passes the
      guards does move. */
  lemma PlanMoveExact(es: seq<Element>, sel: Option<Id>, dir: Direction)
    ensures sel.None? || IndexOfId(es, sel.value).None? ==> PlanMove(es, sel, dir) == Refused
    ensures sel.Some? && IndexOfId(es, sel.value).Some? ==> PlanMove(es, sel, dir) == PlanOn(Stacked(es), sel.value, dir)
    ensures sel.Some? && IndexOfId(es, sel.value).Some? && IndexOfId(Stacked(es), sel.value).Some? ==>
      var c := IndexOfId(Stacked(es), sel.value).value;
      var t := if dir == Front then c + 1 else c - 1;
      0 <= t < |es| && !IsLockedBackdrop(Stacked(es)[t]) ==> PlanMove(es, sel, dir) == Swap(c, t)
  {
    if sel.Some? && IndexOfId(es, sel.value).Some? {
      PlanOnExact(Stacked(es), sel.value, dir);
    }
  }

  /** Under the invariant, every locked backdrop comes before every other element in the
      stacking order. */
  lemma BackdropsStackFirst(es: seq<Element>, a: nat, b: nat)
    requires Layered(es)
    requires a < |es| && b < |es|
    requires IsLockedBackdrop(Stacked(es)[b]) && !IsLockedBackdrop(Stacked(es)[a])
    ensures b < a
  {
    var order := SortOrder(es);
    assert Stacked(es)[a] == es[order[a]] && Stacked(es)[b] == es[order[b]];
  }

  /** One move preserves the invariant and unique ids. */
  lemma MovePreservesLayered(es: seq<Element>, sel: Option<Id>, dir: Direction)
    requires UniqueIds(es) && Layered(es)
    ensures Layered(ApplyRestyles(es, LayerUpdates(es, sel, dir)))
    ensures UniqueIds(ApplyRestyles(es, LayerUpdates(es, sel, dir)))
  {
    match PlanMove(es, sel, dir)
    case Refused =>
    case Swap(current, target) =>
      RestackResult(es, sel, dir);
      RenumberedLayered(es, SwappedOrder(es, current, target), ApplyRestyles(es, LayerUpdates(es, sel, dir)));
  }

  /** Renumbering along a permutation of the positions keeps every id in place and leaves
      every element sitting where the invariant wants it. */
  lemma RenumberedLayered(es: seq<Element>, perm: seq<nat>, r: seq<Element>)
    requires RenumberedAlong(es, perm, r)
    ensures |r| == |es| && Layered(r) && forall i :: 0 <= i < |es| ==> r[i].id == es[i].id
  {
    forall i | 0 <= i < |es|
      ensures r[i].id == es[i].id && Sits(r[i])
    {
      assert i in perm;
      var k :| 0 <= k < |perm| && perm[k] == i;
      RenumberedSits(es[i], k);
    }
  }

  /** Any number of moves, in either direction and on any selection, keeps every locked
      backdrop at z 0 and everything else above it. */
  function Reordered(es: seq<Element>, moves: seq<(Option<Id>, Direction)>): seq<Element>
    decreases |moves|
  {
    if moves == [] then es
    else
      var prev := Reordered(es, moves[..|moves| - 1]);
      var (sel, dir) := moves[|moves| - 1];
      ApplyRestyles(prev, LayerUpdates(prev, sel, dir))
  }

  lemma {:induction false} RepeatedMovesKeepBackdropBottom(es: seq<Element>, moves: seq<(Option<Id>, Direction)>)
    requires UniqueIds(es) && Layered(es)
    ensures Layered(Reordered(es, moves)) && UniqueIds(Reordered(es, moves))
    decreases |moves|
  {
    if moves != [] {
      RepeatedMovesKeepBackdropBottom(es, moves[..|moves| - 1]);
      var prev := Reordered(es, moves[..|moves| - 1]);
      var (sel, dir) := moves[|moves| - 1];
      MovePreservesLayered(prev, sel, dir);
    }
  }

  // ---------------------------------------------------------------------------------
  // Bringing an element forward and sending it straight back restores the order.

  function Ids(s: seq<Element>): seq<Id>
  {
    seq(|s|, k requires 0 <= k < |s| => s[k].id)
  }

  /** The ids in stacking order. */
  function StackIds(es: seq<Element>): seq<Id>
  {
    Ids(Stacked(es))
  }

  /** A bring-forward followed by a send-back of the same selection restores the stacking
      order of the ids (the z-indices come back renumbered), whether or not the selected
      element is a locked backdrop. */
  lemma FrontThenBackRestoresOrder(es: seq<Element>, sel: Option<Id>)
    requires UniqueIds(es) && Layered(es)
    requires PlanMove(es, sel, Front).Swap?
    ensures StackIds(Reordered(es, [(sel, Front), (sel, Back)])) == StackIds(es)
  {
    TwoMoves(es, (sel, Front), (sel, Back));
    var c := PlanMove(es, sel, Front).current;
    if IsLockedBackdrop(Stacked(es)[c]) {
      BackdropForwardAndBack(es, sel, c);
    } else {
      ForwardAndBack(es, sel, c);
    }
  }

  /** The round trip of an ordinary element: both moves swap it with the same neighbour. */
  lemma ForwardAndBack(es: seq<Element>, sel: Option<Id>, c: nat)
    requires UniqueIds(es) && Layered(es)
    requires PlanMove(es, sel, Front) == Swap(c, c + 1) && !IsLockedBackdrop(Stacked(es)[c])
    ensures var once := ApplyRestyles(es, LayerUpdates(es, sel, Front));
      StackIds(ApplyRestyles(once, LayerUpdates(once, sel, Back))) == StackIds(es)
  {
    var once := ApplyRestyles(es, LayerUpdates(es, sel, Front));
    MoveSwapsNeighbours(es, sel, Front);
    SelectedAgain(es, once, sel);
    SentBack(once, sel, c);
    MoveSwapsNeighbours(once, sel, Back);
    SwapTwice(StackIds(es), c, c + 1);
  }

  /** After the bring-forward the selected element sits at `c + 1` above an ordinary
      element, so the send-back swaps the two again. */
  lemma SentBack(once: seq<Element>, sel: Option<Id>, c: nat)
    requires UniqueIds(once) && c + 1 < |once| && sel.Some? && IndexOfId(once, sel.value).Some?
    requires StackIds(once)[c + 1] == sel.value
    requires !IsLockedBackdrop(Stacked(once)[c]) && !IsLockedBackdrop(Stacked(once)[c + 1])
    ensures PlanMove(once, sel, Back) == Swap(c + 1, c)
  {
    StackedUnique(once);
    assert IndexOfId(Stacked(once), sel.value) == Some(c + 1);
    PlanMoveExact(once, sel, Back);
  }

  /** A move keeps every id at its list position, so the selection is still found. */
  lemma SelectedAgain(es: seq<Element>, once: seq<Element>, sel: Option<Id>)
    requires once == ApplyRestyles(es, LayerUpdates(es, sel, Front))
    requires PlanMove(es, sel, Front).Swap?
    ensures sel.Some? && IndexOfId(once, sel.value).Some?
  {
    RestylesKeepIds(es, LayerUpdates(es, sel, Front));
    var i := IndexOfId(es, sel.value).value;
    assert once[i].id == sel.value;
  }

  /** A move of an ordinary element swaps it with its neighbour in the stacking order,
      keeps the invariant and every id at its list position, and leaves the backdrops
      where the swap put them. */
  lemma MoveSwapsNeighbours(es: seq<Element>, sel: Option<Id>, dir: Direction)
    requires UniqueIds(es) && Layered(es)
    requires PlanMove(es, sel, dir).Swap? && !IsLockedBackdrop(Stacked(es)[PlanMove(es, sel, dir).current])
    ensures var p := PlanMove(es, sel, dir);
      var r := ApplyRestyles(es, LayerUpdates(es, sel, dir));
      |r| == |es| && StackIds(r) == SwapAt(StackIds(es), p.current, p.target) &&
      Layered(r) && UniqueIds(r) &&
      (forall k :: 0 <= k < |es| ==> IsLockedBackdrop(Stacked(r)[k]) == IsLockedBackdrop(SwapAt(Stacked(es), p.current, p.target)[k]))
  {
    var p := PlanMove(es, sel, dir);
    var r := ApplyRestyles(es, LayerUpdates(es, sel, dir));
    RestackResult(es, sel, dir);
    MovePreservesLayered(es, sel, dir);
    SwapRestacks(es, p.current, p.target, r);
  }

  /** The round trip of a locked backdrop: renumbering puts it back below its neighbour,
      so the order is unchanged and the send-back is refused. */
  lemma BackdropForwardAndBack(es: seq<Element>, sel: Option<Id>, c: nat)
    requires UniqueIds(es) && Layered(es)
    requires PlanMove(es, sel, Front) == Swap(c, c + 1) && IsLockedBackdrop(Stacked(es)[c])
    ensures var once := ApplyRestyles(es, LayerUpdates(es, sel, Front));
      StackIds(ApplyRestyles(once, LayerUpdates(once, sel, Back))) == StackIds(es)
  {
    var once := ApplyRestyles(es, LayerUpdates(es, sel, Front));
    RestackResult(es, sel, Front);
    BackdropRestacks(es, c, once);
    SelectedAgain(es, once, sel);
    MovePreservesLayered(es, sel, Front);
    BackNotPast(once, sel, c);
  }

  /** A backdrop at `c` with only backdrops below it cannot be sent further back. */
  lemma BackNotPast(once: seq<Element>, sel: Option<Id>, c: nat)
    requires UniqueIds(once) && Layered(once) && c < |once| && sel.Some?
    requires IndexOfId(once, sel.value).Some? && StackIds(once)[c] == sel.value
    requires IsLockedBackdrop(Stacked(once)[c])
    ensures LayerUpdates(once, sel, Back) == []
  {
    StackedUnique(once);
    assert IndexOfId(Stacked(once), sel.value) == Some(c);
    if c > 0 {
      BackdropsBelow(once, c - 1, c);
    }
    RefusedMovesChangeNothing(once, sel, Back);
  }

  /** The stacking order lists distinct positions, so it keeps ids unique. */
  lemma StackedUnique(es: seq<Element>)
    requires UniqueIds(es)
    ensures UniqueIds(Stacked(es))
  {
    var order := SortOrder(es);
    forall a, b | 0 <= a < |order| && 0 <= b < |order| && a != b
      ensures order[a] != order[b]
    {
      if a < b {
        assert Before(es, order[a], order[b]);
      } else {
        assert Before(es, order[b], order[a]);
      }
    }
    SwappedUnique(es, order, Stacked(es));
  }

  /** A permutation of the positions that the comparator finds ascending is the stacking
      order. */
  lemma StackedAlong(r: seq<Element>, q: seq<nat>)
    requires |q| == |r| && InRange(r, q) && Ascending(r, q)
    requires forall x :: x in q <==> 0 <= x < |r|
    ensures forall k :: 0 <= k < |r| ==> Stacked(r)[k] == r[q[k]]
  {
    AscendingUnique(r, SortOrder(r), q);
  }

  /** Under the invariant a list of positions is ascending when backdrops come first and
      in list order, and the other z-indices strictly increase. */
  lemma LayeredAscending(r: seq<Element>, q: seq<nat>)
    requires Layered(r) && InRange(r, q)
    requires forall a, b :: 0 <= a < b < |q| && IsLockedBackdrop(r[q[b]]) ==>
      IsLockedBackdrop(r[q[a]]) && q[a] < q[b]
    requires forall a, b :: 0 <= a < b < |q| && !IsLockedBackdrop(r[q[a]]) && !IsLockedBackdrop(r[q[b]]) ==>
      ZOf(r[q[a]]) < ZOf(r[q[b]])
    ensures Ascending(r, q)
  {
    forall a, b | 0 <= a < b < |q|
      ensures Before(r, q[a], q[b])
    {
      assert Sits(r[q[a]]) && Sits(r[q[b]]);
    }
  }

  /** Under the invariant a locked backdrop has only locked backdrops below it, all in
      list order. */
  lemma BackdropsBelow(es: seq<Element>, a: nat, b: nat)
    requires Layered(es) && a < b < |es| && IsLockedBackdrop(Stacked(es)[b])
    ensures IsLockedBackdrop(Stacked(es)[a]) && SortOrder(es)[a] < SortOrder(es)[b]
  {
    var order := SortOrder(es);
    assert Stacked(es)[a] == es[order[a]] && Stacked(es)[b] == es[order[b]];
    assert Sits(es[order[a]]) && Sits(es[order[b]]);
  }

  /** Swapping two ordinary elements and renumbering: the swapped order is the new
      stacking order. */
  lemma SwapRestacks(es: seq<Element>, c: nat, t: nat, r: seq<Element>)
    requires UniqueIds(es) && Layered(es) && c < |es| && t < |es|
    requires !IsLockedBackdrop(Stacked(es)[c]) && !IsLockedBackdrop(Stacked(es)[t])
    requires RenumberedAlong(es, SwappedOrder(es, c, t), r)
    ensures forall k :: 0 <= k < |es| ==>
      Stacked(r)[k] == SetZ(SwapAt(Stacked(es), c, t)[k], NewZ(SwapAt(Stacked(es), c, t)[k], k))
    ensures StackIds(r) == SwapAt(StackIds(es), c, t)
    ensures forall k :: 0 <= k < |es| ==> IsLockedBackdrop(Stacked(r)[k]) == IsLockedBackdrop(SwapAt(Stacked(es), c, t)[k])
  {
    var perm := SwappedOrder(es, c, t);
    var sw := SwapAt(Stacked(es), c, t);
    RenumberedLayered(es, perm, r);
    forall k | 0 <= k < |es|
      ensures r[perm[k]] == SetZ(sw[k], NewZ(sw[k], k)) && ZOf(r[perm[k]]) == NewZ(sw[k], k)
      ensures IsLockedBackdrop(r[perm[k]]) == IsLockedBackdrop(sw[k])
    {
      RenumberedSits(sw[k], k);
    }
    forall a, b | 0 <= a < b < |es| && IsLockedBackdrop(r[perm[b]])
      ensures IsLockedBackdrop(r[perm[a]]) && perm[a] < perm[b]
    {
      SwappedBackdrops(es, c, t, a, b);
    }
    LayeredAscending(r, perm);
    StackedAlong(r, perm);
    forall k | 0 <= k < |es|
      ensures StackIds(r)[k] == SwapAt(StackIds(es), c, t)[k]
      ensures IsLockedBackdrop(Stacked(r)[k]) == IsLockedBackdrop(sw[k])
    {
      RenumberedSits(sw[k], k);
    }
  }

  /** After a swap of two ordinary elements the backdrops still come first, in list
      order. */
  lemma SwappedBackdrops(es: seq<Element>, c: nat, t: nat, a: nat, b: nat)
    requires UniqueIds(es) && Layered(es) && c < |es| && t < |es| && a < b < |es|
    requires !IsLockedBackdrop(Stacked(es)[c]) && !IsLockedBackdrop(Stacked(es)[t])
    requires IsLockedBackdrop(SwapAt(Stacked(es), c, t)[b])
    ensures IsLockedBackdrop(SwapAt(Stacked(es), c, t)[a])
    ensures SwappedOrder(es, c, t)[a] < SwappedOrder(es, c, t)[b]
  {
    var order := SortOrder(es);
    var perm := SwappedOrder(es, c, t);
    var sw := SwapAt(Stacked(es), c, t);
    assert b != c && b != t;
    BackdropsBelow(es, a, b);
    assert a != c && a != t;
    assert es[perm[a]] == Stacked(es)[a] == es[order[a]];
    assert es[perm[b]] == Stacked(es)[b] == es[order[b]];
  }

  /** A locked backdrop brought forward past an ordinary element is renumbered back to
      z 0, so the stacking order stays as it was. */
  lemma BackdropRestacks(es: seq<Element>, c: nat, r: seq<Element>)
    requires UniqueIds(es) && Layered(es) && c + 1 < |es|
    requires IsLockedBackdrop(Stacked(es)[c]) && !IsLockedBackdrop(Stacked(es)[c + 1])
    requires RenumberedAlong(es, SwappedOrder(es, c, c + 1), r)
    ensures StackIds(r) == StackIds(es)
    ensures forall k :: 0 <= k < |es| ==> IsLockedBackdrop(Stacked(r)[k]) == IsLockedBackdrop(Stacked(es)[k])
  {
    var order := SortOrder(es);
    BackdropOrderAscending(es, c, r);
    StackedAlong(r, order);
    forall k | 0 <= k < |es|
      ensures StackIds(r)[k] == StackIds(es)[k]
      ensures IsLockedBackdrop(Stacked(r)[k]) == IsLockedBackdrop(Stacked(es)[k])
    {
      BackdropRestackedAt(es, c, r, k);
    }
  }

  /** After the backdrop's move the old stacking order is still ascending. */
  lemma BackdropOrderAscending(es: seq<Element>, c: nat, r: seq<Element>)
    requires UniqueIds(es) && Layered(es) && c + 1 < |es|
    requires IsLockedBackdrop(Stacked(es)[c]) && !IsLockedBackdrop(Stacked(es)[c + 1])
    requires RenumberedAlong(es, SwappedOrder(es, c, c + 1), r)
    ensures |r| == |es| && InRange(r, SortOrder(es)) && Ascending(r, SortOrder(es))
  {
    var order := SortOrder(es);
    RenumberedLayered(es, SwappedOrder(es, c, c + 1), r);
    forall k | 0 <= k <= c
      ensures IsLockedBackdrop(Stacked(es)[k])
    {
      if k < c {
        BackdropsBelow(es, k, c);
      }
    }
    forall k | 0 <= k < |es|
      ensures ZOf(r[order[k]]) == NewZ(Stacked(es)[k], Across(k, c))
      ensures IsLockedBackdrop(r[order[k]]) == IsLockedBackdrop(Stacked(es)[k])
    {
      BackdropRestackedAt(es, c, r, k);
    }
    forall a, b | 0 <= a < b < |es| && IsLockedBackdrop(r[order[b]])
      ensures IsLockedBackdrop(r[order[a]]) && order[a] < order[b]
    {
      BackdropsBelow(es, a, b);
    }
    LayeredAscending(r, order);
  }

  /** Where the swap of `c` and `c + 1` takes stacking position `k`. */
  function Across(k: nat, c: nat): nat
  {
    if k == c then c + 1 else if k == c + 1 then c else k
  }

  /** One position of `BackdropRestacks`: the element at stacking position `k` is
      renumbered for the position the swap gave it. */
  lemma BackdropRestackedAt(es: seq<Element>, c: nat, r: seq<Element>, k: nat)
    requires UniqueIds(es) && c + 1 < |es| && k < |es|
    requires RenumberedAlong(es, SwappedOrder(es, c, c + 1), r)
    ensures SortOrder(es)[k] < |r|
    ensures ZOf(r[SortOrder(es)[k]]) == NewZ(Stacked(es)[k], Across(k, c))
    ensures r[SortOrder(es)[k]].id == Stacked(es)[k].id
    ensures IsLockedBackdrop(r[SortOrder(es)[k]]) == IsLockedBackdrop(Stacked(es)[k])
  {
    var order := SortOrder(es);
    var perm := SwappedOrder(es, c, c + 1);
    var k' := Across(k, c);
    assert SwapAt(Stacked(es), c, c + 1)[k'] == Stacked(es)[k] == es[order[k]];
    assert es[perm[k']].id == es[order[k]].id;
    assert perm[k'] == order[k];
    RenumberedSits(Stacked(es)[k], k');
  }

  /** Swapping two positions and swapping them back restores the list. */
  lemma SwapTwice<T>(s: seq<T>, i: nat, j: nat)
    requires i < |s| && j < |s|
    ensures SwapAt(SwapAt(s, i, j), j, i) == s
  {
    assert forall k :: 0 <= k < |s| ==> SwapAt(SwapAt(s, i, j), j, i)[k] == s[k];
  }

  /** Two moves in a row. */
  lemma TwoMoves(es: seq<Element>, first: (Option<Id>, Direction), second: (Option<Id>, Direction))
    ensures var once := ApplyRestyles(es, LayerUpdates(es, first.0, first.1));
      Reordered(es, [first, second]) == ApplyRestyles(once, LayerUpdates(once, second.0, second.1))
  {
    assert [first, second][..1] == [first];
    assert [first][..0] == [];
    assert Reordered(es, [first]) == ApplyRestyles(es, LayerUpdates(es, first.0, first.1));
  }

  /** The sample state satisfies the invariant. */
  lemma InitialElementsLayered()
    ensures Layered(InitialElements) && UniqueIds(InitialElements)
  {
    InitialElementsWellFormed();
  }
}
