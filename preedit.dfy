/**
  The preedit bar widget as the theme engine lays it out: the size it asks
  for (`sizeHintPreEditBar`) and what `drawPreEditBar` paints, as a list of
  drawing requests in widget coordinates.  Font metrics are a parameter; the
  painted opacity of a request is what it contributes to the window.
 */
module PreEditLayout {
  import opened Geometry
  import opened Strings
  import opened NinePatch
  import opened Overlays
  import opened Tiling
  import opened ThemeConfig
  import opened Frame

  /** A font as the engine sets it up: family, pixel size and weight. */
  datatype Font = Font(family: string, pixelSize: int, bold: bool)

  /** `QFontMetrics`: the advance width of a string in a font and the line height of a font. */
  datatype Metrics = Metrics(width: (Font, string) -> int, height: Font -> int)

  /** The fonts, line heights and colour names the engine draws text with. */
  datatype TextStyle = TextStyle(
    preEditFont: Font, labelFont: Font, candidateFont: Font,
    preEditFontHeight: int, labelFontHeight: int, candidateFontHeight: int,
    preEditColor: string, labelColor: string, candidateColor: string)

  /** What the engine reads of a `PreEditBar`: its size, the preedit and auxiliary
      text, the cursor position, the lookup table and the visibility flags. */
  datatype PreEditBarWidget = PreEditBarWidget(
    width: int, height: int,
    text: string, auxText: string, cursorPos: int,
    labels: seq<string>, candidates: seq<string>,
    preeditVisible: bool, auxVisible: bool, lookuptableVisible: bool)

  /** A drawing request of `drawPreEditBar`, in the coordinates of the widget. */
  datatype PaintOp =
    | DrawPixmap(x: int, y: int, pixmap: Pixmap)
    | DrawTiled(x: int, y: int, w: int, h: int, pixmap: Pixmap)
    | DrawText(x: int, y: int, w: int, h: int, font: Font, color: string, text: string)
    | DrawLine(x1: int, y1: int, x2: int, y2: int)

  /** The opaque pixels a request paints: a pixmap at its place, or a pixmap
      repeated from the corner of a rectangle over that rectangle (`drawTiledPixmap`).
      Text and lines are not part of the window shape. */
  function Coverage(op: PaintOp): Region {
    match op
    case DrawPixmap(x, y, p) => Translate(p.mask, x, y)
    case DrawTiled(x, y, w, h, p) =>
      (u: int, v: int) => Within(u, v, Rect(x, y, w, h)) && p.width > 0 && p.height > 0
        && p.mask((u - x) % p.width, (v - y) % p.height)
    case DrawText(_, _, _, _, _, _, _) => EmptyRegion
    case DrawLine(_, _, _, _) => EmptyRegion
  }

  /** The number of lookup-table entries shown: the shorter of the two lists. */
  function EntryCount(wd: PreEditBarWidget): nat {
    if |wd.labels| <= |wd.candidates| then |wd.labels| else |wd.candidates|
  }

  // ---------------------------------------------------------------------------
  // Size hint.

  /** The widest `label.trimmed() + candidate.trimmed()` of the first `n` entries, or 0. */
  function VerticalLookupWidth(wd: PreEditBarWidget, n: nat, st: TextStyle, m: Metrics): (r: int)
    requires n <= EntryCount(wd)
    ensures r >= 0
    ensures forall i :: 0 <= i < n ==> m.width(st.candidateFont, Trim(wd.labels[i]) + Trim(wd.candidates[i])) <= r
  {
    if n == 0 then 0
    else Max(m.width(st.candidateFont, Trim(wd.labels[n - 1]) + Trim(wd.candidates[n - 1])),
             VerticalLookupWidth(wd, n - 1, st, m))
  }

  /** The vertical table width is attained: it is 0 or the width of one of the entries. */
  lemma {:induction false} VerticalLookupWidthAttained(wd: PreEditBarWidget, n: nat, st: TextStyle, m: Metrics)
    requires n <= EntryCount(wd)
    ensures var r := VerticalLookupWidth(wd, n, st, m);
      r == 0 || exists i :: 0 <= i < n && r == m.width(st.candidateFont, Trim(wd.labels[i]) + Trim(wd.candidates[i]))
  {
    if n > 0 {
      VerticalLookupWidthAttained(wd, n - 1, st, m);
    }
  }

  /** The concatenation of a list of strings, `QStringList::join(QString())`. */
  function Concat(parts: seq<string>): string {
    if |parts| == 0 then "" else Concat(parts[..|parts| - 1]) + parts[|parts| - 1]
  }

  /** Joining two lists with no separator is joining each and putting the results
      side by side, and a single part joins to itself. */
  lemma {:induction false} ConcatAppend(a: seq<string>, b: seq<string>)
    ensures Concat(a + b) == Concat(a) + Concat(b)
    ensures |a| == 1 ==> Concat(a) == a[0]
    decreases |b|
  {
    if |b| > 0 {
      var b' := b[..|b| - 1];
      ConcatAppend(a, b');
      assert (a + b)[..|a + b| - 1] == a + b';
    } else {
      assert a + b == a;
    }
    if |a| == 1 {
      assert a[..0] == [];
    }
  }

  /** The string measured for a horizontal lookup table: all labels joined, followed
      by the trimmed label and trimmed candidate of each of the first `n` entries. */
  function HorizontalLookupText(wd: PreEditBarWidget, n: nat): string
    requires n <= EntryCount(wd)
  {
    if n == 0 then Concat(wd.labels)
    else HorizontalLookupText(wd, n - 1) + Trim(wd.labels[n - 1]) + Trim(wd.candidates[n - 1])
  }

  /** The step of the width rounding. */
  const WidthStep := 70

  /** With resizing disabled, a width beyond the skin is rounded up to the skin
      width plus a multiple of the step, by less than one step. */
  function AlignWidth(w: int, skinw: int): (r: int)
    ensures w > skinw ==> r >= w && (r - skinw) % WidthStep == 0 && r - WidthStep < w
    ensures w <= skinw ==> r == w
  {
    if w > skinw then
      var d := w - skinw - 1;
      var q := d / WidthStep;
      assert d == q * WidthStep + d % WidthStep;
      skinw + (q + 1) * WidthStep
    else w
  }

  /** The rounded width is the smallest `skinw + 70 k` that is at least `w`. */
  lemma AlignWidthIsLeast(w: int, skinw: int, k: int)
    requires w > skinw && skinw + k * WidthStep >= w
    ensures AlignWidth(w, skinw) <= skinw + k * WidthStep
  {
    var d := w - skinw - 1;
    var q := d / WidthStep;
    assert d == q * WidthStep + d % WidthStep;
    assert AlignWidth(w, skinw) == skinw + q * WidthStep + WidthStep;
    assert k * WidthStep > d;
  }

  /** A 340 pixel wide content on a 300 pixel skin is given 370 pixels. */
  lemma AlignWidthExample()
    ensures AlignWidth(340, 300) == 370
    ensures AlignWidth(300, 300) == 300
  {
  }

  /** The width the lookup table needs: its widest row in a vertical bar, its one
      line in a horizontal bar. */
  function LookupWidth(wd: PreEditBarWidget, vertical: bool, st: TextStyle, m: Metrics): int {
    if vertical then VerticalLookupWidth(wd, EntryCount(wd), st, m)
    else m.width(st.candidateFont, HorizontalLookupText(wd, EntryCount(wd)))
  }

  /** The height of the text: the preedit line and one table line per entry in a
      vertical bar, or a single table line in a horizontal bar. */
  function ContentHeight(wd: PreEditBarWidget, l: Layout, vertical: bool, st: TextStyle): int {
    l.pt + l.pb + l.zt + l.zb + st.preEditFontHeight
    + (if vertical then EntryCount(wd) * st.candidateFontHeight else st.candidateFontHeight)
  }

  /** `sizeHintPreEditBar` for the selected scheme's skin, layout and insets: the
      natural size of the skin, grown to fit the preedit line and the lookup table,
      with the width rounded up to the step when resizing is disabled. */
  function SizeHint(skin: PreEditBarSkin, l: Layout, ins: Insets, wd: PreEditBarWidget,
                    vertical: bool, resizing: bool, st: TextStyle, m: Metrics): (r: Size)
  {
    var w1 := Max(m.width(st.preEditFont, wd.text + wd.auxText) + l.pl + l.pr + ins.opl + ins.opr, skin.skinw);
    var w2 := Max(LookupWidth(wd, vertical, st, m) + l.zl + l.zr + ins.opl + ins.opr, w1);
    var h := Max(ContentHeight(wd, l, vertical, st) + ins.opt + ins.opb, skin.skinh);
    var w := if resizing then w2 else AlignWidth(w2, skin.skinw);
    Size(w, h)
  }

  /** The hint is the least size that holds the skin, the preedit line with its
      margins and the insets, and the lookup table with its margins and the insets;
      with resizing disabled, a width beyond the skin is the least step multiple
      beyond the skin that holds them. */
  lemma SizeHintBounds(skin: PreEditBarSkin, l: Layout, ins: Insets, wd: PreEditBarWidget,
                       vertical: bool, resizing: bool, st: TextStyle, m: Metrics)
    ensures var r := SizeHint(skin, l, ins, wd, vertical, resizing, st, m);
      var pw := m.width(st.preEditFont, wd.text + wd.auxText) + l.pl + l.pr + ins.opl + ins.opr;
      var lw := LookupWidth(wd, vertical, st, m) + l.zl + l.zr + ins.opl + ins.opr;
      var ch := ContentHeight(wd, l, vertical, st) + ins.opt + ins.opb;
      && r.w >= skin.skinw && r.w >= pw && r.w >= lw
      && r.h >= skin.skinh && r.h >= ch && (r.h == skin.skinh || r.h == ch)
      && (resizing ==> r.w == skin.skinw || r.w == pw || r.w == lw)
      && (!resizing && r.w > skin.skinw ==>
            (r.w - skin.skinw) % WidthStep == 0 && r.w - WidthStep < Max(Max(pw, lw), skin.skinw))
  {
  }

  // ---------------------------------------------------------------------------
  // Painting the frame.

  /** The top edge: drawn at its place, or tiled over the span between the top corners. */
  function TopOp(s: PreEditBarSkin, l: Layout, size: Size): PaintOp {
    if l.hstm == 0 then DrawPixmap(l.hsl, 0, s.top)
    else DrawTiled(l.hsl, 0, TopBottomWidth(s, size), l.vst, s.top)
  }

  /** The bottom edge, below the left and right edges. */
  function BottomOp(s: PreEditBarSkin, l: Layout, size: Size): PaintOp {
    var y := l.vst + LeftRightHeight(s, size);
    if l.hstm == 0 then DrawPixmap(l.hsl, y, s.bottom)
    else DrawTiled(l.hsl, y, TopBottomWidth(s, size), s.bottom.height, s.bottom)
  }

  /** The left edge: drawn at its place, or tiled down the span between the left corners. */
  function LeftOp(s: PreEditBarSkin, l: Layout, size: Size): PaintOp {
    if l.vstm == 0 then DrawPixmap(0, l.vst, s.left)
    else DrawTiled(0, l.vst, l.hsl, LeftRightHeight(s, size), s.left)
  }

  /** The right edge, right of the top and bottom edges. */
  function RightOp(s: PreEditBarSkin, l: Layout, size: Size): PaintOp {
    var x := l.hsl + TopBottomWidth(s, size);
    if l.vstm == 0 then DrawPixmap(x, l.vst, s.right)
    else DrawTiled(x, l.vst, s.right.width, LeftRightHeight(s, size), s.right)
  }

  /** The centre: drawn at its place when neither axis tiles, tiled over the inner rectangle otherwise. */
  function CenterOp(s: PreEditBarSkin, l: Layout, size: Size): PaintOp {
    if l.hstm == 0 && l.vstm == 0 then DrawPixmap(l.hsl, l.vst, s.center)
    else DrawTiled(l.hsl, l.vst, TopBottomWidth(s, size), LeftRightHeight(s, size), s.center)
  }

  /** The frame as `drawPreEditBar` paints it: the corners, then the top and
      bottom edges, the left and right edges and the centre. */
  function BackgroundOps(s: PreEditBarSkin, l: Layout, size: Size): (ops: seq<PaintOp>)
    ensures |ops| == 9
  {
    var tbw, lrh := TopBottomWidth(s, size), LeftRightHeight(s, size);
    [DrawPixmap(0, 0, s.topleft),
     DrawPixmap(l.hsl + tbw, 0, s.topright),
     DrawPixmap(0, l.vst + lrh, s.bottomleft),
     DrawPixmap(l.hsl + tbw, l.vst + lrh, s.bottomright),
     TopOp(s, l, size), BottomOp(s, l, size),
     LeftOp(s, l, size), RightOp(s, l, size),
     CenterOp(s, l, size)]
  }

  /** Where the piece of row-by-row index `k` is painted in `BackgroundOps`. */
  function PaintIndex(k: nat): nat
    requires k < 9
  {
    [0, 4, 1, 6, 8, 7, 2, 5, 3][k]
  }

  /** The size of each tiled piece is the period the mask loops tile it at, along
      the tiled axes, and its extent across them is the span it is drawn over.  A
      skin sliced with cuts strictly inside the image and then resized to a size
      that leaves positive spans between the corners has these sizes
      (`SlicedResizedFits`). */
  predicate TilesFit(s: PreEditBarSkin, l: Layout, size: Size) {
    var tbw, lrh := TopBottomWidth(s, size), LeftRightHeight(s, size);
    var p, q := l.hsr - l.hsl, l.vsb - l.vst;
    && (l.hstm != 0 ==> s.top.width == p && s.top.height == l.vst && s.bottom.width == p)
    && (l.vstm != 0 ==> s.left.height == q && s.left.width == l.hsl && s.right.height == q)
    && (l.hstm == 0 && l.vstm != 0 ==> s.center.width == tbw && s.center.height == q)
    && (l.hstm != 0 && l.vstm == 0 ==> s.center.width == p && s.center.height == lrh)
    && (l.hstm != 0 && l.vstm != 0 ==> s.center.width == p && s.center.height == q)
  }

  /** A piece sliced from an image with cuts strictly inside it is as large as its slice. */
  lemma SlicedPieceSize(src: Pixmap, l: Layout, k: nat)
    requires ValidPixmap(src) && k < 9
    requires 0 < l.hsl < l.hsr < src.width && 0 < l.vst < l.vsb < src.height
    ensures var r := SliceRects(src.width, src.height, l.hsl, l.hsr, l.vst, l.vsb)[k];
      var piece := Pieces(MakeSkin(src, l.hsl, l.hsr, l.vst, l.vsb))[k];
      piece.width == r.w && piece.height == r.h
  {
    var r := SliceRects(src.width, src.height, l.hsl, l.hsr, l.vst, l.vsb);
    SliceInside(src.width, src.height, l.hsl, l.hsr, l.vst, l.vsb, r, k);
    CopyInside(src, r[k], 0, 0);
  }

  /** A skin sliced with cuts strictly inside its image and then resized to a size
      with positive spans between the corners meets `TilesFit`, so mask and painting
      agree (`BackgroundPaintsFrame`) on every skin a load and a resize produce from
      such cuts. */
  lemma SlicedResizedFits(src: Pixmap, l: Layout, size: Size, resample: Resampler)
    requires ValidPixmap(src)
    requires 0 < l.hsl < l.hsr < src.width && 0 < l.vst < l.vsb < src.height
    requires TopBottomWidth(MakeSkin(src, l.hsl, l.hsr, l.vst, l.vsb), size) > 0
    requires LeftRightHeight(MakeSkin(src, l.hsl, l.hsr, l.vst, l.vsb), size) > 0
    ensures TilesFit(ResizedSkin(MakeSkin(src, l.hsl, l.hsr, l.vst, l.vsb), l.hstm, l.vstm, size, resample), l, size)
  {
    var s := MakeSkin(src, l.hsl, l.hsr, l.vst, l.vsb);
    SlicedPieceSize(src, l, 0);
    SlicedPieceSize(src, l, 1);
    SlicedPieceSize(src, l, 3);
    SlicedPieceSize(src, l, 4);
    SlicedPieceSize(src, l, 5);
    SlicedPieceSize(src, l, 7);
    assert s.top == Pieces(s)[1] && s.left == Pieces(s)[3] && s.center == Pieces(s)[4];
    assert s.right == Pieces(s)[5] && s.bottom == Pieces(s)[7] && s.topleft == Pieces(s)[0];
    ResizeKeeps(s, l.hstm, l.vstm, size, resample);
    ResizeFitsCenter(s, l.hstm, l.vstm, size, resample);
  }

  /** What `drawTiledPixmap` paints at a pixel: inside the rectangle, the tile's
      pixel at the remainders of the offsets from the rectangle's corner. */
  lemma TiledAt(ox: int, oy: int, w: int, h: int, p: Pixmap, x: int, y: int)
    requires p.width > 0 && p.height > 0
    ensures Coverage(DrawTiled(ox, oy, w, h, p))(x, y)
      == (Within(x - ox, y - oy, Rect(0, 0, w, h)) && p.mask((x - ox) % p.width, (y - oy) % p.height))
  {
  }

  /** A tile repeated across a span, clipped to the span, is what `drawTiledPixmap`
      paints over the span when the tile is one period wide and as high as the span. */
  lemma AcrossPainted(p: Pixmap, span: int, period: int, h: int, ox: int, oy: int, x: int, y: int)
    requires ValidPixmap(p) && p.width == period && p.height == h
    requires span > 0 ==> period > 0
    ensures Translate(Clip(TileAlong(p.mask, span, period, period, 0), Rect(0, 0, span, h)), ox, oy)(x, y)
      == Coverage(DrawTiled(ox, oy, span, h, p))(x, y)
  {
    var u, v := x - ox, y - oy;
    var r := Rect(0, 0, span, h);
    var g := TileAlong(p.mask, span, period, period, 0);
    assert Translate(Clip(g, r), ox, oy)(x, y) == (Within(u, v, r) && g(u, v));
    if Within(u, v, r) {
      TiledAt(ox, oy, span, h, p, x, y);
      RepeatedIsPeriodic(p.mask, span, period, h, u, v);
      OwnRemainder(v, h);
      assert g(u, v) == p.mask(u % p.width, v % p.height);
    }
  }

  /** The vertical counterpart of `AcrossPainted`. */
  lemma DownPainted(p: Pixmap, span: int, period: int, w: int, ox: int, oy: int, x: int, y: int)
    requires ValidPixmap(p) && p.height == period && p.width == w
    requires span > 0 ==> period > 0
    ensures Translate(Clip(TileAlong(p.mask, span, period, 0, period), Rect(0, 0, w, span)), ox, oy)(x, y)
      == Coverage(DrawTiled(ox, oy, w, span, p))(x, y)
  {
    var u, v := x - ox, y - oy;
    var r := Rect(0, 0, w, span);
    var g := TileAlong(p.mask, span, period, 0, period);
    assert Translate(Clip(g, r), ox, oy)(x, y) == (Within(u, v, r) && g(u, v));
    if Within(u, v, r) {
      TiledAt(ox, oy, w, span, p, x, y);
      ColumnIsPeriodic(p.mask, span, period, w, u, v);
      OwnRemainder(u, w);
      assert g(u, v) == p.mask(u % p.width, v % p.height);
    }
  }

  /** The doubly tiled centre, clipped to the spans, is what `drawTiledPixmap` paints. */
  lemma GridPainted(p: Pixmap, spanX: int, periodX: int, spanY: int, periodY: int, ox: int, oy: int, x: int, y: int)
    requires ValidPixmap(p) && p.width == periodX && p.height == periodY
    requires spanX > 0 && periodX > 0
    requires spanY > 0 ==> periodY > 0
    ensures Translate(Clip(Union(p.mask, Grid(p.mask, periodX, periodY, Steps(spanX, periodX), Steps(spanY, periodY))),
                           Rect(0, 0, spanX, spanY)), ox, oy)(x, y)
      == Coverage(DrawTiled(ox, oy, spanX, spanY, p))(x, y)
  {
    var u, v := x - ox, y - oy;
    var grid := Grid(p.mask, periodX, periodY, Steps(spanX, periodX), Steps(spanY, periodY));
    var g := Union(p.mask, grid);
    var r := Rect(0, 0, spanX, spanY);
    assert Translate(Clip(g, r), ox, oy)(x, y) == (Within(u, v, r) && (p.mask(u, v) || grid(u, v)));
    TiledAt(ox, oy, spanX, spanY, p, x, y);
    assert Coverage(DrawTiled(ox, oy, spanX, spanY, p))(x, y) == (Within(u, v, r) && p.mask(u % periodX, v % periodY));
    if Within(u, v, r) {
      GridIsPeriodic(p.mask, spanX, periodX, spanY, periodY, u, v);
      assert (p.mask(u, v) || grid(u, v)) == p.mask(u % periodX, v % periodY);
    }
  }

  /** The top edge as painted covers exactly the top part of the mask. */
  lemma TopPainted(s: PreEditBarSkin, l: Layout, size: Size, x: int, y: int)
    requires ValidSkin(s) && TilingTerminates(s, l, size) && TilesFit(s, l, size)
    ensures Coverage(TopOp(s, l, size))(x, y) == Translate(TopMask(s, l, size), l.hsl, 0)(x, y)
  {
    if l.hstm != 0 {
      AcrossPainted(s.top, TopBottomWidth(s, size), l.hsr - l.hsl, l.vst, l.hsl, 0, x, y);
    }
  }

  /** The bottom edge as painted covers exactly the bottom part of the mask. */
  lemma BottomPainted(s: PreEditBarSkin, l: Layout, size: Size, x: int, y: int)
    requires ValidSkin(s) && TilingTerminates(s, l, size) && TilesFit(s, l, size)
    ensures Coverage(BottomOp(s, l, size))(x, y)
      == Translate(BottomMask(s, l, size), l.hsl, l.vst + LeftRightHeight(s, size))(x, y)
  {
    if l.hstm != 0 {
      var tbw, lrh := TopBottomWidth(s, size), LeftRightHeight(s, size);
      AcrossPainted(s.bottom, tbw, l.hsr - l.hsl, s.bottom.height, l.hsl, l.vst + lrh, x, y);
    }
  }

  /** The left edge as painted covers exactly the left part of the mask. */
  lemma LeftPainted(s: PreEditBarSkin, l: Layout, size: Size, x: int, y: int)
    requires ValidSkin(s) && TilingTerminates(s, l, size) && TilesFit(s, l, size)
    ensures Coverage(LeftOp(s, l, size))(x, y) == Translate(LeftMask(s, l, size), 0, l.vst)(x, y)
  {
    if l.vstm != 0 {
      DownPainted(s.left, LeftRightHeight(s, size), l.vsb - l.vst, l.hsl, 0, l.vst, x, y);
    }
  }

  /** The right edge as painted covers exactly the right part of the mask. */
  lemma RightPainted(s: PreEditBarSkin, l: Layout, size: Size, x: int, y: int)
    requires ValidSkin(s) && TilingTerminates(s, l, size) && TilesFit(s, l, size)
    ensures Coverage(RightOp(s, l, size))(x, y)
      == Translate(RightMask(s, l, size), l.hsl + TopBottomWidth(s, size), l.vst)(x, y)
  {
    if l.vstm != 0 {
      var tbw, lrh := TopBottomWidth(s, size), LeftRightHeight(s, size);
      DownPainted(s.right, lrh, l.vsb - l.vst, s.right.width, l.hsl + tbw, l.vst, x, y);
    }
  }

  /** The centre as painted covers exactly the centre part of the mask. */
  lemma CenterPainted(s: PreEditBarSkin, l: Layout, size: Size, x: int, y: int)
    requires ValidSkin(s) && TilingTerminates(s, l, size) && TilesFit(s, l, size)
    ensures Coverage(CenterOp(s, l, size))(x, y) == Translate(CenterMask(s, l, size), l.hsl, l.vst)(x, y)
  {
    var tbw, lrh := TopBottomWidth(s, size), LeftRightHeight(s, size);
    var p, q := l.hsr - l.hsl, l.vsb - l.vst;
    var span := Rect(0, 0, tbw, lrh);
    if l.hstm == 0 && l.vstm == 0 {
      assert CenterOp(s, l, size) == DrawPixmap(l.hsl, l.vst, s.center);
      assert CenterMask(s, l, size) == s.center.mask;
    } else {
      assert CenterOp(s, l, size) == DrawTiled(l.hsl, l.vst, tbw, lrh, s.center);
      if l.hstm == 0 {
        assert CenterMask(s, l, size) == Clip(TileAlong(s.center.mask, lrh, q, 0, q), span);
        DownPainted(s.center, lrh, q, tbw, l.hsl, l.vst, x, y);
      } else if l.vstm == 0 {
        assert CenterMask(s, l, size) == Clip(TileAlong(s.center.mask, tbw, p, p, 0), span);
        AcrossPainted(s.center, tbw, p, lrh, l.hsl, l.vst, x, y);
      } else if tbw > 0 {
        assert CenterMask(s, l, size)
          == Clip(Union(s.center.mask, Grid(s.center.mask, p, q, Steps(tbw, p), Steps(lrh, q))), span);
        GridPainted(s.center, tbw, p, lrh, q, l.hsl, l.vst, x, y);
      } else {
        assert CenterMask(s, l, size) == Clip(s.center.mask, span);
        assert !Within(x - l.hsl, y - l.vst, span);
      }
    }
  }

  /** The corners are drawn at the places the mask moves them to. */
  lemma CornersPaintFrame(s: PreEditBarSkin, l: Layout, size: Size, k: nat, x: int, y: int)
    requires TilingTerminates(s, l, size)
    requires k in {0, 2, 6, 8}
    ensures Coverage(BackgroundOps(s, l, size)[PaintIndex(k)])(x, y) == FrameParts(s, l, size)[k](x, y)
  {
    var ops, m := BackgroundOps(s, l, size), FrameParts(s, l, size);
    var tbw, lrh := TopBottomWidth(s, size), LeftRightHeight(s, size);
    if k == 0 {
      assert PaintIndex(k) == 0 && ops[0] == DrawPixmap(0, 0, s.topleft) && m[0] == s.topleft.mask;
      assert Coverage(ops[0])(x, y) == s.topleft.mask(x - 0, y - 0);
    } else if k == 2 {
      assert PaintIndex(k) == 1 && ops[1] == DrawPixmap(l.hsl + tbw, 0, s.topright);
      assert m[2] == Translate(s.topright.mask, l.hsl + tbw, 0);
    } else if k == 6 {
      assert PaintIndex(k) == 2 && ops[2] == DrawPixmap(0, l.vst + lrh, s.bottomleft);
      assert m[6] == Translate(s.bottomleft.mask, 0, l.vst + lrh);
    } else {
      assert PaintIndex(k) == 3 && ops[3] == DrawPixmap(l.hsl + tbw, l.vst + lrh, s.bottomright);
      assert m[8] == Translate(s.bottomright.mask, l.hsl + tbw, l.vst + lrh);
    }
  }

  /** The edges and the centre, drawn or tiled, cover exactly their parts of the mask. */
  lemma EdgesPaintFrame(s: PreEditBarSkin, l: Layout, size: Size, k: nat, x: int, y: int)
    requires ValidSkin(s) && TilingTerminates(s, l, size) && TilesFit(s, l, size)
    requires k in {1, 3, 4, 5, 7}
    ensures Coverage(BackgroundOps(s, l, size)[PaintIndex(k)])(x, y) == FrameParts(s, l, size)[k](x, y)
  {
    var ops, m := BackgroundOps(s, l, size), FrameParts(s, l, size);
    var tbw, lrh := TopBottomWidth(s, size), LeftRightHeight(s, size);
    if k == 4 {
      assert PaintIndex(k) == 8 && ops[8] == CenterOp(s, l, size);
      assert m[4] == Translate(CenterMask(s, l, size), l.hsl, l.vst);
      CenterPainted(s, l, size, x, y);
    } else if k == 1 {
      assert PaintIndex(k) == 4 && ops[4] == TopOp(s, l, size) && m[1] == Translate(TopMask(s, l, size), l.hsl, 0);
      TopPainted(s, l, size, x, y);
    } else if k == 7 {
      assert PaintIndex(k) == 5 && ops[5] == BottomOp(s, l, size);
      assert m[7] == Translate(BottomMask(s, l, size), l.hsl, l.vst + lrh);
      BottomPainted(s, l, size, x, y);
    } else if k == 3 {
      assert PaintIndex(k) == 6 && ops[6] == LeftOp(s, l, size) && m[3] == Translate(LeftMask(s, l, size), 0, l.vst);
      LeftPainted(s, l, size, x, y);
    } else {
      assert PaintIndex(k) == 7 && ops[7] == RightOp(s, l, size);
      assert m[5] == Translate(RightMask(s, l, size), l.hsl + tbw, l.vst);
      RightPainted(s, l, size, x, y);
    }
  }

  /** Mask and painting agree on the frame: every piece is painted at the place
      the mask moves it to, and what the painter puts on the screen for a piece
      (drawn, or tiled by `drawTiledPixmap`) is exactly that piece's part of the
      mask, stretched pieces and tiled pieces alike. */
  lemma BackgroundPaintsFrame(s: PreEditBarSkin, l: Layout, size: Size, k: nat, x: int, y: int)
    requires ValidSkin(s) && TilingTerminates(s, l, size) && TilesFit(s, l, size)
    requires k < 9
    ensures Coverage(BackgroundOps(s, l, size)[PaintIndex(k)])(x, y) == FrameParts(s, l, size)[k](x, y)
  {
    if k in {0, 2, 6, 8} {
      CornersPaintFrame(s, l, size, k, x, y);
    } else {
      EdgesPaintFrame(s, l, size, k, x, y);
    }
  }

  // ---------------------------------------------------------------------------
  // Painting the overlays.

  /** The overlay loop of `drawPreEditBar`: each overlay drawn at the origin of a
      painter moved by its offset. */
  function OverlayOps(ops: seq<OverlayPixmap>, size: Size, ins: Insets): (r: seq<PaintOp>)
    ensures |r| == |ops|
  {
    if |ops| == 0 then []
    else
      var op := ops[|ops| - 1];
      var d := OverlayOffset(op, size, ins);
      OverlayOps(ops[..|ops| - 1], size, ins) + [DrawPixmap(d.x, d.y, op.pixmap)]
  }

  /** Every overlay is painted at the offset its mask is moved by, so the pixels
      it paints are exactly its placed part of the mask. */
  lemma {:induction false} OverlayPaintedWhereMasked(ops: seq<OverlayPixmap>, size: Size, ins: Insets, k: nat, x: int, y: int)
    requires k < |ops|
    ensures OverlayOps(ops, size, ins)[k] ==
      DrawPixmap(OverlayOffset(ops[k], size, ins).x, OverlayOffset(ops[k], size, ins).y, ops[k].pixmap)
    ensures Coverage(OverlayOps(ops, size, ins)[k])(x, y) == OverlayAt(ops[k], size, ins, x, y)
  {
    if k < |ops| - 1 {
      OverlayPaintedWhereMasked(ops[..|ops| - 1], size, ins, k, x, y);
    }
  }

  // ---------------------------------------------------------------------------
  // The text.

  /** The preedit line: the preedit and auxiliary text in a box at the preedit
      margins, and, when the preedit is visible, the caret after the text that
      precedes the cursor, as high as the line.  The painter is moved by the
      left and top insets. */
  function PreEditOps(wd: PreEditBarWidget, l: Layout, ins: Insets, st: TextStyle, m: Metrics): seq<PaintOp> {
    if !(wd.preeditVisible || wd.auxVisible) then []
    else
      var x0, y0 := ins.opl + l.pl, ins.opt + l.pt;
      var caret := x0 + m.width(st.preEditFont, Left(wd.text, wd.cursorPos));
      [DrawText(x0, y0, wd.width - l.pl - l.pr, st.preEditFontHeight, st.preEditFont, st.preEditColor, wd.text + wd.auxText)]
      + (if wd.preeditVisible then [DrawLine(caret, y0, caret, y0 + st.preEditFontHeight)] else [])
  }

  /** The top of the lookup table in widget coordinates: below the preedit line,
      whose space is kept even when it is hidden. */
  function LookupTop(l: Layout, ins: Insets, st: TextStyle): int {
    ins.opt + l.pt + st.preEditFontHeight + l.pb + l.zt
  }

  /** The height of a lookup-table cell. */
  function CellHeight(st: TextStyle): int {
    Max(st.labelFontHeight, st.candidateFontHeight)
  }

  /** The label of entry `i` drawn at `(x, y)`, as wide as the label. */
  function LabelOp(wd: PreEditBarWidget, i: nat, x: int, y: int, st: TextStyle, m: Metrics): PaintOp
    requires i < EntryCount(wd)
  {
    DrawText(x, y, m.width(st.labelFont, wd.labels[i]), CellHeight(st), st.labelFont, st.labelColor, wd.labels[i])
  }

  /** The candidate text of entry `i` in a vertical table (trimmed) or a horizontal one (trimmed, then a space). */
  function CandidateText(wd: PreEditBarWidget, i: nat, vertical: bool): string
    requires i < EntryCount(wd)
  {
    if vertical then Trim(wd.candidates[i]) else Trim(wd.candidates[i]) + " "
  }

  /** The candidate of entry `i` drawn at `(x, y)`, as wide as its text. */
  function CandidateOp(wd: PreEditBarWidget, i: nat, vertical: bool, x: int, y: int, st: TextStyle, m: Metrics): PaintOp
    requires i < EntryCount(wd)
  {
    var t := CandidateText(wd, i, vertical);
    DrawText(x, y, m.width(st.candidateFont, t), CellHeight(st), st.candidateFont, st.candidateColor, t)
  }

  /** The first `n` rows of a vertical table: row `i` at `y0 + i * cell height`,
      the label at `x0` and the candidate right after it. */
  function VerticalRows(wd: PreEditBarWidget, n: nat, x0: int, y0: int, st: TextStyle, m: Metrics): (r: seq<PaintOp>)
    requires n <= EntryCount(wd)
    ensures |r| == 2 * n
  {
    if n == 0 then []
    else
      var i := n - 1;
      var y := y0 + i * CellHeight(st);
      VerticalRows(wd, i, x0, y0, st, m)
      + [LabelOp(wd, i, x0, y, st, m), CandidateOp(wd, i, true, x0 + m.width(st.labelFont, wd.labels[i]), y, st, m)]
  }

  /** The width of entry `i` in a horizontal table: its label and its candidate text. */
  function EntryWidth(wd: PreEditBarWidget, i: nat, st: TextStyle, m: Metrics): int
    requires i < EntryCount(wd)
  {
    m.width(st.labelFont, wd.labels[i]) + m.width(st.candidateFont, CandidateText(wd, i, false))
  }

  /** The left edge of entry `n` in a horizontal table starting at `x0`. */
  function EntryX(wd: PreEditBarWidget, n: nat, x0: int, st: TextStyle, m: Metrics): int
    requires n <= EntryCount(wd)
  {
    if n == 0 then x0 else EntryX(wd, n - 1, x0, st, m) + EntryWidth(wd, n - 1, st, m)
  }

  /** The first `n` entries of a horizontal table, one after the other on the line `y0`. */
  function HorizontalRows(wd: PreEditBarWidget, n: nat, x0: int, y0: int, st: TextStyle, m: Metrics): (r: seq<PaintOp>)
    requires n <= EntryCount(wd)
    ensures |r| == 2 * n
  {
    if n == 0 then []
    else
      var i := n - 1;
      var x := EntryX(wd, i, x0, st, m);
      HorizontalRows(wd, i, x0, y0, st, m)
      + [LabelOp(wd, i, x, y0, st, m), CandidateOp(wd, i, false, x + m.width(st.labelFont, wd.labels[i]), y0, st, m)]
  }

  /** The lookup table, when visible, one entry per label that has a candidate. */
  function LookupOps(wd: PreEditBarWidget, l: Layout, ins: Insets, vertical: bool, st: TextStyle, m: Metrics): (r: seq<PaintOp>)
    ensures |r| == if wd.lookuptableVisible then 2 * EntryCount(wd) else 0
  {
    if !wd.lookuptableVisible then []
    else if vertical then VerticalRows(wd, EntryCount(wd), ins.opl + l.zl, LookupTop(l, ins, st), st, m)
    else HorizontalRows(wd, EntryCount(wd), ins.opl + l.zl, LookupTop(l, ins, st), st, m)
  }

  /** Everything `drawPreEditBar` draws, in order. */
  function PaintList(s: PreEditBarSkin, l: Layout, ins: Insets, ops: seq<OverlayPixmap>,
                     wd: PreEditBarWidget, vertical: bool, st: TextStyle, m: Metrics): seq<PaintOp>
  {
    BackgroundOps(s, l, Size(wd.width, wd.height)) + OverlayOps(ops, Size(wd.width, wd.height), ins)
    + PreEditOps(wd, l, ins, st, m) + LookupOps(wd, l, ins, vertical, st, m)
  }

  /** The caret is drawn exactly when the preedit is visible, at the width of the
      text before the cursor from the left of the text box, over the box's height. */
  lemma CaretPlacement(wd: PreEditBarWidget, l: Layout, ins: Insets, st: TextStyle, m: Metrics)
    ensures var ops := PreEditOps(wd, l, ins, st, m);
      && |ops| == (if wd.preeditVisible then 2 else if wd.auxVisible then 1 else 0)
      && (wd.preeditVisible ==>
            var t, c := ops[0], ops[1];
            && t.DrawText? && c.DrawLine?
            && c.x1 == c.x2 == t.x + m.width(st.preEditFont, Left(wd.text, wd.cursorPos))
            && c.y1 == t.y && c.y2 == t.y + t.h)
  {
  }

  /** A vertical table is a column of rows: entry `i` is drawn at height
      `y0 + i * cell height`, its label at `x0` and its candidate where the label ends. */
  lemma {:induction false} VerticalRowsLayout(wd: PreEditBarWidget, n: nat, x0: int, y0: int, st: TextStyle, m: Metrics, i: nat)
    requires n <= EntryCount(wd) && i < n
    ensures var r := VerticalRows(wd, n, x0, y0, st, m);
      && r[2 * i] == LabelOp(wd, i, x0, y0 + i * CellHeight(st), st, m)
      && r[2 * i].DrawText? && r[2 * i + 1].DrawText?
      && r[2 * i + 1].x == r[2 * i].x + r[2 * i].w && r[2 * i + 1].y == r[2 * i].y
      && r[2 * i + 1] == CandidateOp(wd, i, true, r[2 * i + 1].x, r[2 * i].y, st, m)
  {
    if i < n - 1 {
      VerticalRowsLayout(wd, n - 1, x0, y0, st, m, i);
      var r, r0 := VerticalRows(wd, n, x0, y0, st, m), VerticalRows(wd, n - 1, x0, y0, st, m);
      assert r[2 * i] == r0[2 * i] && r[2 * i + 1] == r0[2 * i + 1];
    }
  }

  /** A horizontal table is one line: every label and candidate is at height `y0`,
      the first label at `x0`, each candidate where its label ends and each label
      where the previous candidate ends. */
  lemma {:induction false} HorizontalRowsLayout(wd: PreEditBarWidget, n: nat, x0: int, y0: int, st: TextStyle, m: Metrics, i: nat)
    requires n <= EntryCount(wd) && i < n
    ensures var r := HorizontalRows(wd, n, x0, y0, st, m);
      && r[2 * i].DrawText? && r[2 * i + 1].DrawText? && (i > 0 ==> r[2 * i - 1].DrawText?)
      && r[2 * i].y == y0 && r[2 * i + 1].y == y0
      && r[2 * i] == LabelOp(wd, i, r[2 * i].x, y0, st, m)
      && r[2 * i + 1] == CandidateOp(wd, i, false, r[2 * i].x + r[2 * i].w, y0, st, m)
      && (i == 0 ==> r[0].x == x0)
      && (i > 0 ==> r[2 * i].x == r[2 * i - 1].x + r[2 * i - 1].w)
  {
    var r := HorizontalRows(wd, n, x0, y0, st, m);
    if i < n - 1 {
      HorizontalRowsLayout(wd, n - 1, x0, y0, st, m, i);
      var r0 := HorizontalRows(wd, n - 1, x0, y0, st, m);
      assert r[2 * i] == r0[2 * i] && r[2 * i + 1] == r0[2 * i + 1];
      if i > 0 {
        assert r[2 * i - 1] == r0[2 * i - 1];
      }
    } else if i > 0 {
      HorizontalRowsLayout(wd, n - 1, x0, y0, st, m, i - 1);
      var r0 := HorizontalRows(wd, n - 1, x0, y0, st, m);
      assert r[2 * i - 1] == r0[2 * i - 1];
      assert r[2 * i].x == EntryX(wd, i, x0, st, m);
      assert EntryX(wd, i, x0, st, m) == EntryX(wd, i - 1, x0, st, m) + EntryWidth(wd, i - 1, st, m);
      assert i - 1 == 0 ==> r0[0].x == x0;
      assert r0[2 * (i - 1)].x == EntryX(wd, i - 1, x0, st, m) by {
        EntryXIsLabel(wd, n - 1, x0, y0, st, m, i - 1);
      }
    }
  }

  /** The label of entry `i` starts at `EntryX(i)`. */
  lemma {:induction false} EntryXIsLabel(wd: PreEditBarWidget, n: nat, x0: int, y0: int, st: TextStyle, m: Metrics, i: nat)
    requires n <= EntryCount(wd) && i < n
    ensures HorizontalRows(wd, n, x0, y0, st, m)[2 * i] == LabelOp(wd, i, EntryX(wd, i, x0, st, m), y0, st, m)
  {
    var r0 := HorizontalRows(wd, n - 1, x0, y0, st, m);
    var x := EntryX(wd, n - 1, x0, st, m);
    var last := [LabelOp(wd, n - 1, x, y0, st, m),
                 CandidateOp(wd, n - 1, false, x + m.width(st.labelFont, wd.labels[n - 1]), y0, st, m)];
    assert HorizontalRows(wd, n, x0, y0, st, m) == r0 + last;
    if i < n - 1 {
      EntryXIsLabel(wd, n - 1, x0, y0, st, m, i);
      assert (r0 + last)[2 * i] == r0[2 * i];
    } else {
      assert (r0 + last)[2 * i] == last[0];
    }
  }
}
