/**
  Overlay decorations of the preedit bar: the per-scheme table of named
  overlays (`h_overlays` / `v_overlays`), the content insets the overlays
  reserve around the text (`calculateOverlaySurrounding`), and the 9-area
  placement formula shared by the mask and by painting.
 */
module Overlays {
  import opened Geometry
  import opened Options

  /** `OverlayPixmap`: the image, its four margins, the two sub-modes, the anchor
      area of the 3x3 grid and the secondary target tag. */
  datatype OverlayPixmap = OverlayPixmap(
    pixmap: Pixmap,
    mt: int, mb: int, ml: int, mr: int,
    alignVMode: int, alignHMode: int, alignArea: int, alignTarget: int)

  /** `OverlayPixmap()`: a null image, all numbers zero. */
  const DefaultOverlay: OverlayPixmap := OverlayPixmap(Null, 0, 0, 0, 0, 0, 0, 0, 0)

  ghost predicate ValidOverlay(op: OverlayPixmap) {
    ValidPixmap(op.pixmap)
  }

  // ---------------------------------------------------------------------------
  // The overlay table: `QHash<QString, OverlayPixmap>` as a sequence of entries
  // with distinct names, in the order the names were first inserted.

  datatype NamedOverlay = NamedOverlay(name: string, overlay: OverlayPixmap)

  type OverlayTable = seq<NamedOverlay>

  predicate UniqueNames(t: OverlayTable) {
    forall i, j :: 0 <= i < j < |t| ==> t[i].name != t[j].name
  }

  ghost predicate ValidTable(t: OverlayTable) {
    UniqueNames(t) && forall i :: 0 <= i < |t| ==> ValidOverlay(t[i].overlay)
  }

  /** The position of `name` in the table, or -1. */
  function IndexOf(t: OverlayTable, name: string): (r: int)
    ensures -1 <= r < |t|
    ensures r >= 0 ==> t[r].name == name
    ensures r < 0 <==> forall i :: 0 <= i < |t| ==> t[i].name != name
  {
    if |t| == 0 then -1
    else if t[|t| - 1].name == name then |t| - 1
    else IndexOf(t[..|t| - 1], name)
  }

  /** `QHash::contains`. */
  predicate Contains(t: OverlayTable, name: string) {
    IndexOf(t, name) >= 0
  }

  /** `QHash::value` as an optional result. */
  function Lookup(t: OverlayTable, name: string): Option<OverlayPixmap> {
    var i := IndexOf(t, name);
    if i < 0 then None else Some(t[i].overlay)
  }

  /** Replaces the value stored under an existing name. */
  function Replace(t: OverlayTable, name: string, op: OverlayPixmap): (r: OverlayTable)
    requires Contains(t, name)
  {
    t[IndexOf(t, name) := NamedOverlay(name, op)]
  }

  /** `QHash::insert`: replaces the value of an existing name, otherwise adds an entry. */
  function Insert(t: OverlayTable, name: string, op: OverlayPixmap): (r: OverlayTable)
  {
    if Contains(t, name) then Replace(t, name, op) else t + [NamedOverlay(name, op)]
  }

  /** `QHash::operator[]` used for writing: a missing name gets a default entry first. */
  function Touch(t: OverlayTable, name: string): (r: OverlayTable)
    ensures Contains(r, name)
  {
    if Contains(t, name) then t
    else
      var r := t + [NamedOverlay(name, DefaultOverlay)];
      assert r[|t|].name == name;
      r
  }

  /** After `Insert`, the name maps to the new value, every other name keeps its
      value, the table grows by one entry exactly when the name was new, and
      names stay distinct. */
  lemma InsertLookup(t: OverlayTable, name: string, op: OverlayPixmap, other: string)
    requires UniqueNames(t)
    ensures UniqueNames(Insert(t, name, op))
    ensures Lookup(Insert(t, name, op), name) == Some(op)
    ensures other != name ==> Lookup(Insert(t, name, op), other) == Lookup(t, other)
    ensures |Insert(t, name, op)| == if Contains(t, name) then |t| else |t| + 1
  {
    var r := Insert(t, name, op);
    assert forall i :: 0 <= i < |t| ==> r[i].name == t[i].name;
    assert IndexOf(r, name) >= 0;
    if other != name {
      var i, j := IndexOf(r, other), IndexOf(t, other);
      if j >= 0 {
        assert r[j].name == other;
        UniqueIndex(r, other, i, j);
      }
    }
    UniqueIndex(r, name, IndexOf(r, name), if Contains(t, name) then IndexOf(t, name) else |t|);
  }

  /** In a table with distinct names, a name sits at one index only. */
  lemma UniqueIndex(t: OverlayTable, name: string, i: int, j: int)
    requires UniqueNames(t)
    requires -1 <= i < |t| && (i >= 0 ==> t[i].name == name) && (i < 0 ==> forall k :: 0 <= k < |t| ==> t[k].name != name)
    requires 0 <= j < |t| && t[j].name == name
    ensures i == j
  {
  }

  /** A table with the same names and the same images, entry by entry, as a valid table is valid. */
  lemma SameShapeValid(u: OverlayTable, r: OverlayTable)
    requires ValidTable(u) && |r| == |u|
    requires forall k :: 0 <= k < |r| ==> r[k].name == u[k].name && r[k].overlay.pixmap == u[k].overlay.pixmap
    ensures ValidTable(r)
  {
  }

  /** `Touch` adds nothing for a known name and keeps names distinct. */
  lemma TouchKeeps(t: OverlayTable, name: string)
    requires UniqueNames(t)
    ensures UniqueNames(Touch(t, name))
    ensures Contains(t, name) ==> Touch(t, name) == t
    ensures !Contains(t, name) ==> Touch(t, name) == t + [NamedOverlay(name, DefaultOverlay)]
  {
  }

  /** Writing through `operator[]`: after the name is touched and its value replaced,
      the name maps to the new value, whose predecessor was the current value or the
      default; other names keep theirs, names stay distinct, and an entry is added
      exactly when the name was new. */
  lemma TouchReplaceLookup(t: OverlayTable, name: string, v: OverlayPixmap, other: string)
    requires UniqueNames(t)
    ensures Lookup(Touch(t, name), name).Some?
    ensures Lookup(Touch(t, name), name).value
      == if Contains(t, name) then Lookup(t, name).value else DefaultOverlay
    ensures UniqueNames(Replace(Touch(t, name), name, v))
    ensures Lookup(Replace(Touch(t, name), name, v), name) == Some(v)
    ensures other != name ==> Lookup(Replace(Touch(t, name), name, v), other) == Lookup(t, other)
    ensures |Replace(Touch(t, name), name, v)| == if Contains(t, name) then |t| else |t| + 1
  {
    TouchKeeps(t, name);
    TouchLookup(t, name, other);
    ReplaceLookup(Touch(t, name), name, v, other);
  }

  /** Touching a name gives it an entry, the default one when it was new, and leaves
      every other name's value alone. */
  lemma TouchLookup(t: OverlayTable, name: string, other: string)
    requires UniqueNames(t)
    ensures Lookup(Touch(t, name), name)
      == Some(if Contains(t, name) then Lookup(t, name).value else DefaultOverlay)
    ensures other != name ==> Lookup(Touch(t, name), other) == Lookup(t, other)
  {
    TouchKeeps(t, name);
    if !Contains(t, name) {
      var u := Touch(t, name);
      assert u[|t|].name == name;
      UniqueIndex(u, name, IndexOf(u, name), |t|);
      if other != name {
        assert u[..|t|] == t;
        var j := IndexOf(u, other);
        if IndexOf(t, other) >= 0 {
          UniqueIndex(u, other, j, IndexOf(t, other));
        }
      }
    }
  }

  /** Replacing the value of a present name changes that value only. */
  lemma ReplaceLookup(t: OverlayTable, name: string, v: OverlayPixmap, other: string)
    requires UniqueNames(t) && Contains(t, name)
    ensures UniqueNames(Replace(t, name, v)) && |Replace(t, name, v)| == |t|
    ensures Lookup(Replace(t, name, v), name) == Some(v)
    ensures other != name ==> Lookup(Replace(t, name, v), other) == Lookup(t, other)
  {
    var r := Replace(t, name, v);
    assert forall k :: 0 <= k < |t| ==> r[k].name == t[k].name;
    UniqueIndex(r, name, IndexOf(r, name), IndexOf(t, name));
    if other != name {
      var j := IndexOf(t, other);
      if j >= 0 {
        UniqueIndex(r, other, IndexOf(r, other), j);
      }
    }
  }

  /** The values of the table in iteration order. */
  function Values(t: OverlayTable): (vs: seq<OverlayPixmap>)
    ensures |vs| == |t|
    ensures forall i :: 0 <= i < |t| ==> vs[i] == t[i].overlay
  {
    seq(|t|, i requires 0 <= i < |t| => t[i].overlay)
  }

  /** Iterating over the values of a table visits the value of every name in it and
      nothing else: each name's looked-up value is among the values, and each value
      is the looked-up value of some name. */
  lemma ValuesAreLookups(t: OverlayTable, name: string, v: OverlayPixmap)
    requires UniqueNames(t)
    ensures Lookup(t, name).Some? ==> Lookup(t, name).value in Values(t)
    ensures v in Values(t) ==> exists n :: Lookup(t, n) == Some(v)
  {
    if v in Values(t) {
      var i :| 0 <= i < |t| && Values(t)[i] == v;
      UniqueIndex(t, t[i].name, IndexOf(t, t[i].name), i);
      assert Lookup(t, t[i].name) == Some(v);
    }
  }

  // ---------------------------------------------------------------------------
  // Content insets.

  /** The space reserved on each side of the content for overlays: `opt`, `opb`, `opl`, `opr`. */
  datatype Insets = Insets(opt: int, opb: int, opl: int, opr: int)

  const NoInsets: Insets := Insets(0, 0, 0, 0)

  datatype Side = Top | Bottom | LeftSide | RightSide

  /** The anchor areas that reserve space on a side: the column or row of the grid along it. */
  predicate Contributes(area: int, side: Side) {
    match side
    case LeftSide => area == 1 || area == 4 || area == 7
    case RightSide => area == 3 || area == 6 || area == 9
    case Top => area == 1 || area == 2 || area == 3
    case Bottom => area == 7 || area == 8 || area == 9
  }

  /** The extent of an overlay across a side: its width on the left and right, its height on top and bottom. */
  function Extent(op: OverlayPixmap, side: Side): int {
    match side
    case LeftSide => op.pixmap.width
    case RightSide => op.pixmap.width
    case Top => op.pixmap.height
    case Bottom => op.pixmap.height
  }

  function InsetOf(ins: Insets, side: Side): int {
    match side
    case LeftSide => ins.opl
    case RightSide => ins.opr
    case Top => ins.opt
    case Bottom => ins.opb
  }

  /** One step of `calculateOverlaySurrounding`: the `switch` on the anchor area. */
  function AddOverlay(ins: Insets, op: OverlayPixmap): Insets {
    var w, h := op.pixmap.width, op.pixmap.height;
    match op.alignArea
    case 1 => Insets(Max(ins.opt, h), ins.opb, Max(ins.opl, w), ins.opr)
    case 2 => Insets(Max(ins.opt, h), ins.opb, ins.opl, ins.opr)
    case 3 => Insets(Max(ins.opt, h), ins.opb, ins.opl, Max(ins.opr, w))
    case 4 => Insets(ins.opt, ins.opb, Max(ins.opl, w), ins.opr)
    case 6 => Insets(ins.opt, ins.opb, ins.opl, Max(ins.opr, w))
    case 7 => Insets(ins.opt, Max(ins.opb, h), Max(ins.opl, w), ins.opr)
    case 8 => Insets(ins.opt, Max(ins.opb, h), ins.opl, ins.opr)
    case 9 => Insets(ins.opt, Max(ins.opb, h), ins.opl, Max(ins.opr, w))
    case _ => ins
  }

  /** The insets accumulated over the overlays in iteration order, from zero. */
  function Surrounding(ops: seq<OverlayPixmap>): Insets
  {
    if |ops| == 0 then NoInsets else AddOverlay(Surrounding(ops[..|ops| - 1]), ops[|ops| - 1])
  }

  /** `calculateOverlaySurrounding`: the iterator loop over the table. */
  method CalculateOverlaySurrounding(overlays: OverlayTable) returns (opt: int, opb: int, opl: int, opr: int)
    ensures Insets(opt, opb, opl, opr) == Surrounding(Values(overlays))
  {
    opl := 0;
    opr := 0;
    opt := 0;
    opb := 0;
    var vs := Values(overlays);
    var k := 0;
    while k < |overlays|
      invariant 0 <= k <= |overlays|
      invariant Insets(opt, opb, opl, opr) == Surrounding(vs[..k])
    {
      var op := overlays[k].overlay;
      match op.alignArea {
        case 1 =>
          opl := Max(opl, op.pixmap.width);
          opt := Max(opt, op.pixmap.height);
        case 2 =>
          opt := Max(opt, op.pixmap.height);
        case 3 =>
          opr := Max(opr, op.pixmap.width);
          opt := Max(opt, op.pixmap.height);
        case 4 =>
          opl := Max(opl, op.pixmap.width);
        case 5 =>
        case 6 =>
          opr := Max(opr, op.pixmap.width);
        case 7 =>
          opl := Max(opl, op.pixmap.width);
          opb := Max(opb, op.pixmap.height);
        case 8 =>
          opb := Max(opb, op.pixmap.height);
        case 9 =>
          opr := Max(opr, op.pixmap.width);
          opb := Max(opb, op.pixmap.height);
        case _ =>
      }
      assert vs[..k + 1][..k] == vs[..k];
      k := k + 1;
    }
    assert vs[..k] == vs;
  }

  /** `v` is zero or the largest extent, across the side, of the overlays whose
      area reserves space on that side. */
  ghost predicate IsInsetFor(v: int, ops: seq<OverlayPixmap>, side: Side) {
    && v >= 0
    && (forall k :: 0 <= k < |ops| && Contributes(ops[k].alignArea, side) ==> Extent(ops[k], side) <= v)
    && (v == 0 || exists k :: 0 <= k < |ops| && Contributes(ops[k].alignArea, side) && Extent(ops[k], side) == v)
  }

  /** Each inset is 0 or the maximum extent over its contributing areas: `opl` over
      the widths of areas 1, 4, 7, `opr` over 3, 6, 9, `opt` over the heights of
      1, 2, 3 and `opb` over 7, 8, 9; area 5 and areas outside 1..9 reserve nothing. */
  lemma {:induction false} SurroundingIsMax(ops: seq<OverlayPixmap>, side: Side)
    ensures IsInsetFor(InsetOf(Surrounding(ops), side), ops, side)
  {
    if |ops| > 0 {
      var init := ops[..|ops| - 1];
      var last := ops[|ops| - 1];
      SurroundingIsMax(init, side);
      var before := InsetOf(Surrounding(init), side);
      var after := InsetOf(Surrounding(ops), side);
      assert after == if Contributes(last.alignArea, side) then Max(before, Extent(last, side)) else before;
      forall k | 0 <= k < |ops| && Contributes(ops[k].alignArea, side)
        ensures Extent(ops[k], side) <= after
      {
        if k < |ops| - 1 {
          assert ops[k] == init[k];
        }
      }
      if after != 0 {
        if after == before {
          var k :| 0 <= k < |init| && Contributes(init[k].alignArea, side) && Extent(init[k], side) == before;
          assert ops[k] == init[k];
        } else {
          assert Contributes(ops[|ops| - 1].alignArea, side) && Extent(ops[|ops| - 1], side) == after;
        }
      }
    }
  }

  /** An inset is determined by the overlays it is taken over, whatever their order. */
  lemma InsetUnique(v: int, u: int, a: seq<OverlayPixmap>, b: seq<OverlayPixmap>, side: Side)
    requires multiset(a) == multiset(b)
    requires IsInsetFor(v, a, side) && IsInsetFor(u, b, side)
    ensures v == u
  {
    if v != 0 {
      var k :| 0 <= k < |a| && Contributes(a[k].alignArea, side) && Extent(a[k], side) == v;
      assert a[k] in multiset(b);
      var j :| 0 <= j < |b| && b[j] == a[k];
      assert v <= u;
    }
    if u != 0 {
      var k :| 0 <= k < |b| && Contributes(b[k].alignArea, side) && Extent(b[k], side) == u;
      assert b[k] in multiset(a);
      var j :| 0 <= j < |a| && a[j] == b[k];
      assert u <= v;
    }
  }

  /** The insets do not depend on the iteration order of the hash. */
  lemma SurroundingOrderFree(a: seq<OverlayPixmap>, b: seq<OverlayPixmap>)
    requires multiset(a) == multiset(b)
    ensures Surrounding(a) == Surrounding(b)
  {
    forall side: Side ensures InsetOf(Surrounding(a), side) == InsetOf(Surrounding(b), side) {
      SurroundingIsMax(a, side);
      SurroundingIsMax(b, side);
      InsetUnique(InsetOf(Surrounding(a), side), InsetOf(Surrounding(b), side), a, b, side);
    }
    assert InsetOf(Surrounding(a), Top) == InsetOf(Surrounding(b), Top);
    assert InsetOf(Surrounding(a), Bottom) == InsetOf(Surrounding(b), Bottom);
    assert InsetOf(Surrounding(a), LeftSide) == InsetOf(Surrounding(b), LeftSide);
    assert InsetOf(Surrounding(a), RightSide) == InsetOf(Surrounding(b), RightSide);
  }

  // ---------------------------------------------------------------------------
  // Placement.

  /** C++ integer division of `a` by a positive `b`: the quotient truncated toward zero. */
  function CDiv(a: int, b: int): (q: int)
    requires b > 0
    ensures a >= 0 ==> 0 <= a - q * b < b
    ensures a < 0 ==> -b < a - q * b <= 0
  {
    if a >= 0 then a / b else -((-a) / b)
  }

  /** The horizontal offset of the sub-modes `0` (centre), `1` (start) and `2` (end),
      with the margin applied by the start and end modes. */
  function HAlign(hmode: int, op: OverlayPixmap, w: int, ins: Insets): int
    requires 0 <= hmode <= 2
  {
    if hmode == 0 then CDiv(w + ins.opl - ins.opr + op.pixmap.width, 2)
    else if hmode == 1 then ins.opl + op.ml
    else w - ins.opr - op.pixmap.width - op.mr
  }

  /** The vertical counterpart of `HAlign`. */
  function VAlign(vmode: int, op: OverlayPixmap, h: int, ins: Insets): int
    requires 0 <= vmode <= 2
  {
    if vmode == 0 then CDiv(h - ins.opb + ins.opt + op.pixmap.height, 2)
    else if vmode == 1 then ins.opt + op.mt
    else h - ins.opb - op.pixmap.height - op.mb
  }

  predicate ValidMode(m: int) { 0 <= m <= 2 }

  /** The translation applied to an overlay in a bar of size `size`: the `switch`
      on the anchor area, with the two translations of each case added up. */
  function OverlayOffset(op: OverlayPixmap, size: Size, ins: Insets): Point {
    var w, h := size.w, size.h;
    var hm, vm := op.alignHMode, op.alignVMode;
    match op.alignArea
    case 1 => Point(-op.mr, -op.mb)
    case 2 =>
      if !ValidMode(hm) then Point(0, 0)
      else if hm == 0 then Point(HAlign(hm, op, w, ins), -op.mb)
      else if hm == 1 then Point(HAlign(hm, op, w, ins), -op.mb)
      else Point(HAlign(hm, op, w, ins), -op.mb)
    case 3 => Point(w - ins.opr + op.ml, -op.mb)
    case 4 =>
      if !ValidMode(vm) then Point(0, 0)
      else if vm == 0 then Point(-op.mr, VAlign(vm, op, h, ins))
      else if vm == 1 then Point(-op.mr, VAlign(vm, op, h, ins))
      else Point(-op.mr, VAlign(vm, op, h, ins))
    case 5 =>
      Point(if ValidMode(hm) then HAlign(hm, op, w, ins) else 0,
            if ValidMode(vm) then VAlign(vm, op, h, ins) else 0)
    case 6 =>
      if !ValidMode(vm) then Point(0, 0)
      else Point(w - ins.opr + op.ml, VAlign(vm, op, h, ins))
    case 7 => Point(-op.mr, h - ins.opb + op.mt)
    case 8 =>
      if !ValidMode(hm) then Point(0, 0)
      else Point(HAlign(hm, op, w, ins), h - ins.opb + op.mt)
    case 9 => Point(w - ins.opr + op.ml, h - ins.opb + op.mt)
    case _ => Point(0, 0)
  }

  /** An overlay whose area is outside 1..9 stays at the origin. */
  lemma OffsetOutsideGrid(op: OverlayPixmap, size: Size, ins: Insets)
    requires op.alignArea < 1 || op.alignArea > 9
    ensures OverlayOffset(op, size, ins) == Point(0, 0)
  {
  }

  /** A horizontal sub-mode outside {0, 1, 2} gives no horizontal offset in the
      areas that use it; in the edge areas 2 and 8 it gives no offset at all. */
  lemma OffsetBadHMode(op: OverlayPixmap, size: Size, ins: Insets)
    requires op.alignArea == 2 || op.alignArea == 5 || op.alignArea == 8
    requires !ValidMode(op.alignHMode)
    ensures OverlayOffset(op, size, ins).x == 0
    ensures op.alignArea != 5 ==> OverlayOffset(op, size, ins) == Point(0, 0)
  {
  }

  /** A vertical sub-mode outside {0, 1, 2} gives no vertical offset in the areas
      that use it; in the edge areas 4 and 6 it gives no offset at all. */
  lemma OffsetBadVMode(op: OverlayPixmap, size: Size, ins: Insets)
    requires op.alignArea == 4 || op.alignArea == 5 || op.alignArea == 6
    requires !ValidMode(op.alignVMode)
    ensures OverlayOffset(op, size, ins).y == 0
    ensures op.alignArea != 5 ==> OverlayOffset(op, size, ins) == Point(0, 0)
  {
  }

  function Column(area: int): int { (area - 1) % 3 }
  function Row(area: int): int { (area - 1) / 3 }

  /** Overlays placed with valid sub-modes in the same column of the grid get the
      same horizontal offset, and in the same row the same vertical offset: the
      grid is a product of a column rule and a row rule. */
  lemma OffsetIsGrid(a: OverlayPixmap, b: OverlayPixmap, size: Size, ins: Insets)
    requires 1 <= a.alignArea <= 9 && 1 <= b.alignArea <= 9
    requires ValidMode(a.alignHMode) && ValidMode(a.alignVMode)
    requires b == a.(alignArea := b.alignArea)
    ensures Column(a.alignArea) == Column(b.alignArea) ==> OverlayOffset(a, size, ins).x == OverlayOffset(b, size, ins).x
    ensures Row(a.alignArea) == Row(b.alignArea) ==> OverlayOffset(a, size, ins).y == OverlayOffset(b, size, ins).y
  {
  }

  /** An overlay flush against a side with no outward margin lies inside the inset
      band of that side, because the inset is at least its extent. */
  lemma OverlayInsideInsetBand(ops: seq<OverlayPixmap>, k: nat, size: Size)
    requires k < |ops|
    ensures var op, ins := ops[k], Surrounding(ops);
      ((op.alignArea == 1 || op.alignArea == 7 || (op.alignArea == 4 && ValidMode(op.alignVMode))) && op.mr == 0 ==>
         OverlayOffset(op, size, ins).x == 0 && op.pixmap.width <= ins.opl)
    ensures var op, ins := ops[k], Surrounding(ops);
      ((op.alignArea == 3 || op.alignArea == 9 || (op.alignArea == 6 && ValidMode(op.alignVMode))) && op.ml == 0 ==>
         OverlayOffset(op, size, ins).x == size.w - ins.opr && op.pixmap.width <= ins.opr)
    ensures var op, ins := ops[k], Surrounding(ops);
      ((op.alignArea == 1 || op.alignArea == 3 || (op.alignArea == 2 && ValidMode(op.alignHMode))) && op.mb == 0 ==>
         OverlayOffset(op, size, ins).y == 0 && op.pixmap.height <= ins.opt)
    ensures var op, ins := ops[k], Surrounding(ops);
      ((op.alignArea == 7 || op.alignArea == 9 || (op.alignArea == 8 && ValidMode(op.alignHMode))) && op.mt == 0 ==>
         OverlayOffset(op, size, ins).y == size.h - ins.opb && op.pixmap.height <= ins.opb)
  {
    SurroundingIsMax(ops, LeftSide);
    SurroundingIsMax(ops, RightSide);
    SurroundingIsMax(ops, Top);
    SurroundingIsMax(ops, Bottom);
  }

  /** The centring sub-mode as written puts the overlay's left edge at
      `(W + opl - opr + ow) / 2`, which is `ow` to the right of the centred position
      `opl + (Cw - ow) / 2` within the content width `Cw = W - opl - opr`. */
  lemma CentringAsWritten(op: OverlayPixmap, size: Size, ins: Insets)
    requires op.alignArea == 5 && op.alignHMode == 0
    requires size.w + ins.opl - ins.opr + op.pixmap.width >= 0
    requires (size.w - ins.opl - ins.opr - op.pixmap.width) % 2 == 0
    ensures OverlayOffset(op, size, ins).x
      == ins.opl + (size.w - ins.opl - ins.opr - op.pixmap.width) / 2 + op.pixmap.width
  {
    var cw := size.w - ins.opl - ins.opr;
    var ow := op.pixmap.width;
    var n := size.w + ins.opl - ins.opr + ow;
    assert n == (cw - ow) + 2 * (ins.opl + ow);
    assert n / 2 == (cw - ow) / 2 + ins.opl + ow;
  }

  /** For example, a 20-pixel overlay centred in a 100-pixel bar without insets
      starts at 60, not at 40. */
  lemma CentringExample()
    ensures OverlayOffset(OverlayPixmap(Pixmap(20, 10, EmptyRegion), 0, 0, 0, 0, 0, 0, 5, 0),
                          Size(100, 50), NoInsets) == Point(60, 30)
  {
  }
}
