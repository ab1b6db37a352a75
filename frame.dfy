/**
  The preedit bar frame at a given widget size: how `resizePreEditBar` fits
  the scaled pieces of the nine-patch skin to the size, and the window-shape
  mask `updatePreEditBarMask` builds from the pieces and the overlays.  The
  two spans are the width left between the top corners and the height left
  between the left corners; an edge or the centre is stretched over its span
  when the scheme's stretch mode (`hstm` across, `vstm` down) is 0 and tiled
  over it at the period `hsr - hsl` (across) or `vsb - vst` (down) otherwise.
 */
module Frame {
  import opened Geometry
  import opened NinePatch
  import opened Overlays
  import opened Tiling
  import opened ThemeConfig

  /** `topbottomwidth`: the width between the two top corners. */
  function TopBottomWidth(s: PreEditBarSkin, size: Size): int {
    size.w - s.topleft.width - s.topright.width
  }

  /** `leftrightheight`: the height between the two left corners. */
  function LeftRightHeight(s: PreEditBarSkin, size: Size): int {
    size.h - s.topleft.height - s.bottomleft.height
  }

  // ---------------------------------------------------------------------------
  // Resizing.

  /** The top and bottom edges after the resize: in stretch mode both are
      rescaled to the span when the top edge is not already that wide. */
  function ResizedTopBottom(s: PreEditBarSkin, hstm: int, size: Size, resample: Resampler): (r: PreEditBarSkin)
    requires ValidPixmap(s.top) && ValidPixmap(s.bottom)
    ensures ValidPixmap(r.top) && ValidPixmap(r.bottom)
    ensures r == s.(top := r.top, bottom := r.bottom)
  {
    var tbw := TopBottomWidth(s, size);
    if hstm == 0 && s.top.width != tbw then
      s.(top := Scaled(s.top, tbw, s.top.height, resample),
         bottom := Scaled(s.bottom, tbw, s.bottom.height, resample))
    else s
  }

  /** The left and right edges after the resize: in stretch mode both are
      rescaled to the span when the left edge is not already that high. */
  function ResizedLeftRight(s: PreEditBarSkin, vstm: int, size: Size, resample: Resampler): (r: PreEditBarSkin)
    requires ValidPixmap(s.left) && ValidPixmap(s.right)
    ensures ValidPixmap(r.left) && ValidPixmap(r.right)
    ensures r == s.(left := r.left, right := r.right)
  {
    var lrh := LeftRightHeight(s, size);
    if vstm == 0 && s.left.height != lrh then
      s.(left := Scaled(s.left, s.left.width, lrh, resample),
         right := Scaled(s.right, s.right.width, lrh, resample))
    else s
  }

  /** The centre after the resize: rescaled along each axis in stretch mode,
      each time only when its size along that axis differs from the span. */
  function ResizedCenter(c: Pixmap, hstm: int, vstm: int, tbw: int, lrh: int, resample: Resampler): (r: Pixmap)
    requires ValidPixmap(c)
    ensures ValidPixmap(r)
  {
    if hstm == 0 then
      if vstm == 0 then
        if c.width != tbw || c.height != lrh then Scaled(c, tbw, lrh, resample) else c
      else
        if c.width != tbw then Scaled(c, tbw, c.height, resample) else c
    else
      if vstm == 0 then
        if c.height != lrh then Scaled(c, c.width, lrh, resample) else c
      else c
  }

  /** `resizePreEditBar` on the skin of the selected scheme. */
  function ResizedSkin(s: PreEditBarSkin, hstm: int, vstm: int, size: Size, resample: Resampler): (r: PreEditBarSkin)
    requires ValidSkin(s)
    ensures ValidSkin(r)
  {
    var s1 := ResizedTopBottom(s, hstm, size, resample);
    var s2 := ResizedLeftRight(s1, vstm, size, resample);
    var r := s2.(center := ResizedCenter(s2.center, hstm, vstm, TopBottomWidth(s, size), LeftRightHeight(s, size), resample));
    r
  }

  /** The resize keeps the corners and the natural size, and leaves every
      piece that is tiled along its axis as it was. */
  lemma ResizeKeeps(s: PreEditBarSkin, hstm: int, vstm: int, size: Size, resample: Resampler)
    requires ValidSkin(s)
    ensures var r := ResizedSkin(s, hstm, vstm, size, resample);
      && r.skinw == s.skinw && r.skinh == s.skinh
      && r.topleft == s.topleft && r.topright == s.topright
      && r.bottomleft == s.bottomleft && r.bottomright == s.bottomright
      && (hstm != 0 ==> r.top == s.top && r.bottom == s.bottom)
      && (vstm != 0 ==> r.left == s.left && r.right == s.right)
      && (hstm != 0 && vstm != 0 ==> r.center == s.center)
  {
  }

  /** In stretch mode across, a non-null top edge ends up exactly as wide as the
      span between the top corners and keeps its height, and so does a
      non-null bottom edge that was as wide as the top edge; a span that is not
      positive leaves both edges null. */
  lemma ResizeStretchesTopBottom(s: PreEditBarSkin, vstm: int, size: Size, resample: Resampler)
    requires ValidSkin(s)
    ensures var r := ResizedSkin(s, 0, vstm, size, resample);
      var tbw := TopBottomWidth(s, size);
      && (tbw > 0 && !s.top.IsNull() ==> r.top.width == tbw && r.top.height == s.top.height)
      && (tbw > 0 && !s.bottom.IsNull() && s.bottom.width == s.top.width ==>
            r.bottom.width == tbw && r.bottom.height == s.bottom.height)
      && (tbw <= 0 ==> r.top.IsNull() && (s.bottom.width == s.top.width ==> r.bottom.IsNull()))
  {
  }

  /** In stretch mode down, a non-null left edge ends up exactly as high as the
      span between the left corners and keeps its width, and so does a non-null
      right edge that was as high as the left edge. */
  lemma ResizeStretchesLeftRight(s: PreEditBarSkin, hstm: int, size: Size, resample: Resampler)
    requires ValidSkin(s)
    ensures var r := ResizedSkin(s, hstm, 0, size, resample);
      var lrh := LeftRightHeight(s, size);
      && (lrh > 0 && !s.left.IsNull() ==> r.left.height == lrh && r.left.width == s.left.width)
      && (lrh > 0 && !s.right.IsNull() && s.right.height == s.left.height ==>
            r.right.height == lrh && r.right.width == s.right.width)
      && (lrh <= 0 ==> r.left.IsNull() && (s.right.height == s.left.height ==> r.right.IsNull()))
  {
  }

  /** A non-null centre is fitted to the spans along exactly the axes in stretch
      mode and keeps its size along the tiled axes. */
  lemma ResizeFitsCenter(s: PreEditBarSkin, hstm: int, vstm: int, size: Size, resample: Resampler)
    requires ValidSkin(s) && !s.center.IsNull()
    requires TopBottomWidth(s, size) > 0 && LeftRightHeight(s, size) > 0
    ensures var c := ResizedSkin(s, hstm, vstm, size, resample).center;
      && c.width == (if hstm == 0 then TopBottomWidth(s, size) else s.center.width)
      && c.height == (if vstm == 0 then LeftRightHeight(s, size) else s.center.height)
  {
  }

  /** Resizing twice to the same size is resizing once: each rescale is guarded
      by a size comparison that the first resize has made true, or rescales a
      piece that is already null. */
  lemma ResizeIdempotent(s: PreEditBarSkin, hstm: int, vstm: int, size: Size, resample: Resampler)
    requires ValidSkin(s)
    ensures ResizedSkin(ResizedSkin(s, hstm, vstm, size, resample), hstm, vstm, size, resample)
      == ResizedSkin(s, hstm, vstm, size, resample)
  {
    var r := ResizedSkin(s, hstm, vstm, size, resample);
    var tbw, lrh := TopBottomWidth(s, size), LeftRightHeight(s, size);
    ResizeKeeps(s, hstm, vstm, size, resample);
    assert TopBottomWidth(r, size) == tbw && LeftRightHeight(r, size) == lrh;
    var s1 := ResizedTopBottom(r, hstm, size, resample);
    assert s1 == r by {
      if hstm == 0 && r.top.width != tbw {
        assert r.top.IsNull() && r.top == Null;
        ScaledIdempotent(s.bottom, tbw, s.bottom.height, resample);
      }
    }
    var s2 := ResizedLeftRight(s1, vstm, size, resample);
    assert s2 == r by {
      if vstm == 0 && r.left.height != lrh {
        assert r.left == Null;
        ScaledIdempotent(s.right, s.right.width, lrh, resample);
      }
    }
    var c := ResizedCenter(r.center, hstm, vstm, tbw, lrh, resample);
    assert c == r.center by {
      var mid := ResizedLeftRight(ResizedTopBottom(s, hstm, size, resample), vstm, size, resample);
      assert mid.center == s.center;
      assert r.center == ResizedCenter(s.center, hstm, vstm, tbw, lrh, resample);
      if hstm == 0 && vstm != 0 {
        ScaledIdempotent(s.center, tbw, s.center.height, resample);
      } else if hstm != 0 && vstm == 0 {
        ScaledIdempotent(s.center, s.center.width, lrh, resample);
      }
    }
  }

  // ---------------------------------------------------------------------------
  // The mask of the frame.

  /** The tiling loops end only when their period is positive wherever their
      span is: each loop adds its period to a counter until it reaches the span. */
  predicate TilingTerminates(s: PreEditBarSkin, l: Layout, size: Size) {
    && (l.hstm != 0 && TopBottomWidth(s, size) > 0 ==> l.hsr - l.hsl > 0)
    && (l.vstm != 0 && LeftRightHeight(s, size) > 0 ==> l.vsb - l.vst > 0)
  }

  /** A tile together with the copies the loop `for (i = 0; i < span; i += period)`
      unions into it, each copy moved one more step `(sx, sy)`. */
  function TileAlong(g: Region, span: int, period: int, sx: int, sy: int): Region
    requires span > 0 ==> period > 0
  {
    Union(g, Repeated(g, sx, sy, Steps(span, period)))
  }

  /** The top edge region before translation: its mask in stretch mode, otherwise
      its mask tiled across the span and clipped to `span x vst`. */
  function TopMask(s: PreEditBarSkin, l: Layout, size: Size): Region
    requires TilingTerminates(s, l, size)
  {
    if l.hstm == 0 then s.top.mask
    else Clip(TileAlong(s.top.mask, TopBottomWidth(s, size), l.hsr - l.hsl, l.hsr - l.hsl, 0),
              Rect(0, 0, TopBottomWidth(s, size), l.vst))
  }

  /** The bottom edge region before translation, clipped to the edge's own height. */
  function BottomMask(s: PreEditBarSkin, l: Layout, size: Size): Region
    requires TilingTerminates(s, l, size)
  {
    if l.hstm == 0 then s.bottom.mask
    else Clip(TileAlong(s.bottom.mask, TopBottomWidth(s, size), l.hsr - l.hsl, l.hsr - l.hsl, 0),
              Rect(0, 0, TopBottomWidth(s, size), s.bottom.height))
  }

  /** The left edge region before translation, tiled down and clipped to `hsl x span`. */
  function LeftMask(s: PreEditBarSkin, l: Layout, size: Size): Region
    requires TilingTerminates(s, l, size)
  {
    if l.vstm == 0 then s.left.mask
    else Clip(TileAlong(s.left.mask, LeftRightHeight(s, size), l.vsb - l.vst, 0, l.vsb - l.vst),
              Rect(0, 0, l.hsl, LeftRightHeight(s, size)))
  }

  /** The right edge region before translation, clipped to the edge's own width. */
  function RightMask(s: PreEditBarSkin, l: Layout, size: Size): Region
    requires TilingTerminates(s, l, size)
  {
    if l.vstm == 0 then s.right.mask
    else Clip(TileAlong(s.right.mask, LeftRightHeight(s, size), l.vsb - l.vst, 0, l.vsb - l.vst),
              Rect(0, 0, s.right.width, LeftRightHeight(s, size)))
  }

  /** The centre region before translation: its mask when stretched both ways
      (not clipped), otherwise tiled along the tiled axes and clipped to the spans. */
  function CenterMask(s: PreEditBarSkin, l: Layout, size: Size): Region
    requires TilingTerminates(s, l, size)
  {
    var tbw, lrh := TopBottomWidth(s, size), LeftRightHeight(s, size);
    var p, q := l.hsr - l.hsl, l.vsb - l.vst;
    var span := Rect(0, 0, tbw, lrh);
    if l.hstm == 0 then
      if l.vstm == 0 then s.center.mask
      else Clip(TileAlong(s.center.mask, lrh, q, 0, q), span)
    else
      if l.vstm == 0 then Clip(TileAlong(s.center.mask, tbw, p, p, 0), span)
      else if tbw <= 0 then Clip(s.center.mask, span)
      else Clip(Union(s.center.mask, Grid(s.center.mask, p, q, Steps(tbw, p), Steps(lrh, q))), span)
  }

  /** The nine parts of the frame mask moved to their places, row by row. */
  function FrameParts(s: PreEditBarSkin, l: Layout, size: Size): (m: seq<Region>)
    requires TilingTerminates(s, l, size)
    ensures |m| == 9
  {
    var tbw, lrh := TopBottomWidth(s, size), LeftRightHeight(s, size);
    [s.topleft.mask,
     Translate(TopMask(s, l, size), l.hsl, 0),
     Translate(s.topright.mask, l.hsl + tbw, 0),
     Translate(LeftMask(s, l, size), 0, l.vst),
     Translate(CenterMask(s, l, size), l.hsl, l.vst),
     Translate(RightMask(s, l, size), l.hsl + tbw, l.vst),
     Translate(s.bottomleft.mask, 0, l.vst + lrh),
     Translate(BottomMask(s, l, size), l.hsl, l.vst + lrh),
     Translate(s.bottomright.mask, l.hsl + tbw, l.vst + lrh)]
  }

  /** `topleft | top | topright | left | center | right | bottomleft | bottom | bottomright`. */
  function FrameMask(s: PreEditBarSkin, l: Layout, size: Size): Region
    requires TilingTerminates(s, l, size)
  {
    var m := FrameParts(s, l, size);
    Union(Union(Union(Union(Union(Union(Union(Union(m[0], m[1]), m[2]), m[3]), m[4]), m[5]), m[6]), m[7]), m[8])
  }

  /** The frame mask with its nine parts written out. */
  lemma FrameMaskParts(s: PreEditBarSkin, l: Layout, size: Size)
    requires TilingTerminates(s, l, size)
    ensures var tbw, lrh := TopBottomWidth(s, size), LeftRightHeight(s, size);
      FrameMask(s, l, size) ==
        Union(Union(Union(Union(Union(Union(Union(Union(
          s.topleft.mask,
          Translate(TopMask(s, l, size), l.hsl, 0)),
          Translate(s.topright.mask, l.hsl + tbw, 0)),
          Translate(LeftMask(s, l, size), 0, l.vst)),
          Translate(CenterMask(s, l, size), l.hsl, l.vst)),
          Translate(RightMask(s, l, size), l.hsl + tbw, l.vst)),
          Translate(s.bottomleft.mask, 0, l.vst + lrh)),
          Translate(BottomMask(s, l, size), l.hsl, l.vst + lrh)),
          Translate(s.bottomright.mask, l.hsl + tbw, l.vst + lrh))
  {
  }

  /** A pixel is in the frame mask exactly when it is in one of the nine parts. */
  lemma FrameMaskAt(s: PreEditBarSkin, l: Layout, size: Size, x: int, y: int)
    requires TilingTerminates(s, l, size)
    ensures FrameMask(s, l, size)(x, y) <==> exists k :: 0 <= k < 9 && FrameParts(s, l, size)[k](x, y)
  {
    var m := FrameParts(s, l, size);
    if FrameMask(s, l, size)(x, y) {
      var k :| 0 <= k < 9 && m[k](x, y);
    }
  }

  /** In tile mode each tiled edge and the tiled centre stay inside their span
      rectangle before translation. */
  lemma TiledPartsInSpan(s: PreEditBarSkin, l: Layout, size: Size, x: int, y: int)
    requires TilingTerminates(s, l, size)
    ensures var tbw, lrh := TopBottomWidth(s, size), LeftRightHeight(s, size);
      && (l.hstm != 0 && TopMask(s, l, size)(x, y) ==> Within(x, y, Rect(0, 0, tbw, l.vst)))
      && (l.hstm != 0 && BottomMask(s, l, size)(x, y) ==> Within(x, y, Rect(0, 0, tbw, s.bottom.height)))
      && (l.vstm != 0 && LeftMask(s, l, size)(x, y) ==> Within(x, y, Rect(0, 0, l.hsl, lrh)))
      && (l.vstm != 0 && RightMask(s, l, size)(x, y) ==> Within(x, y, Rect(0, 0, s.right.width, lrh)))
      && ((l.hstm != 0 || l.vstm != 0) && CenterMask(s, l, size)(x, y) ==> Within(x, y, Rect(0, 0, tbw, lrh)))
  {
  }

  // ---------------------------------------------------------------------------
  // The overlays of the mask.

  /** Pixel `(x, y)` is in the mask of overlay `op` moved by its offset. */
  predicate OverlayAt(op: OverlayPixmap, size: Size, ins: Insets, x: int, y: int) {
    var d := OverlayOffset(op, size, ins);
    op.pixmap.mask(x - d.x, y - d.y)
  }

  /** The mask of an overlay moved by its offset (`opRegion`). */
  function PlacedOverlay(op: OverlayPixmap, size: Size, ins: Insets): Region {
    var d := OverlayOffset(op, size, ins);
    Translate(op.pixmap.mask, d.x, d.y)
  }

  /** The overlay loop: each overlay's placed mask united into the accumulator in turn. */
  function WithOverlays(acc: Region, ops: seq<OverlayPixmap>, size: Size, ins: Insets): Region {
    if |ops| == 0 then acc
    else Union(WithOverlays(acc, ops[..|ops| - 1], size, ins), PlacedOverlay(ops[|ops| - 1], size, ins))
  }

  /** `m_preEditBarMask` after `updatePreEditBarMask`. */
  function PreEditBarMaskOf(s: PreEditBarSkin, l: Layout, ins: Insets, ops: seq<OverlayPixmap>, size: Size): Region
    requires TilingTerminates(s, l, size)
  {
    WithOverlays(FrameMask(s, l, size), ops, size, ins)
  }

  /** The overlay loop adds exactly the placed overlays: a pixel is in the result
      when it was in the accumulator or in the placed mask of some overlay, and
      only then.  An overlay whose area is outside 1..9 is added at the origin. */
  lemma {:induction false} WithOverlaysAt(acc: Region, ops: seq<OverlayPixmap>, size: Size, ins: Insets, x: int, y: int)
    ensures WithOverlays(acc, ops, size, ins)(x, y) ==
      (acc(x, y) || exists k :: 0 <= k < |ops| && OverlayAt(ops[k], size, ins, x, y))
  {
    if |ops| > 0 {
      var init := ops[..|ops| - 1];
      WithOverlaysAt(acc, init, size, ins, x, y);
      if exists k :: 0 <= k < |ops| && OverlayAt(ops[k], size, ins, x, y) {
        var k :| 0 <= k < |ops| && OverlayAt(ops[k], size, ins, x, y);
        if k < |ops| - 1 {
          assert init[k] == ops[k];
        }
      }
      if exists k :: 0 <= k < |init| && OverlayAt(init[k], size, ins, x, y) {
        var k :| 0 <= k < |init| && OverlayAt(init[k], size, ins, x, y);
        assert ops[k] == init[k];
      }
    }
  }

  /** The whole preedit bar mask is the frame mask together with every placed overlay. */
  lemma PreEditBarMaskAt(s: PreEditBarSkin, l: Layout, ins: Insets, ops: seq<OverlayPixmap>, size: Size, x: int, y: int)
    requires TilingTerminates(s, l, size)
    ensures PreEditBarMaskOf(s, l, ins, ops, size)(x, y) ==
      ((exists k :: 0 <= k < 9 && FrameParts(s, l, size)[k](x, y))
       || exists k :: 0 <= k < |ops| && OverlayAt(ops[k], size, ins, x, y))
  {
    WithOverlaysAt(FrameMask(s, l, size), ops, size, ins, x, y);
    FrameMaskAt(s, l, size, x, y);
  }
}
