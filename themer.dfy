/**
  The Sogou theme engine (`ThemerSogou`): the members a theme load fills in,
  and the operations the panel calls on them — size hints, layout, resizing,
  the window-shape masks and painting.  The two schemes are the horizontal
  preedit bar (`h_...`) and the vertical one (`v_...`); the settings choose
  which one is in use.
 */
module Themer {
  import opened Geometry
  import opened Strings
  import opened Options
  import opened NinePatch
  import opened Overlays
  import opened Tiling
  import opened ThemeConfig
  import opened Frame
  import opened PreEditLayout
  import Bars = StatusBar

  /** The settings the engine consults. */
  datatype Settings = Settings(
    verticalPreeditBar: bool, enablePreeditResizing: bool,
    enableWindowMask: bool, enableBackgroundBlur: bool, backgroundColorizing: bool)

  /** A mask is kept up to date only when something uses it. */
  predicate NeedsMask(c: Settings) {
    c.enableWindowMask || c.enableBackgroundBlur || c.backgroundColorizing
  }

  /** The theme file named by the settings: missing, not a zip archive, or an
      archive with or without a `skin.ini` (given as its lines) and with its
      decoded images by entry name. */
  datatype ThemeFile =
    | Missing
    | NotAZip
    | Archive(skinIni: Option<seq<string>>, images: Images)

  /** `QFont::setPixelSize`: a size that is not positive is ignored. */
  function PixelSize(current: int, requested: int): (r: int)
    ensures requested > 0 ==> r == requested
    ensures requested <= 0 ==> r == current
  {
    if requested > 0 then requested else current
  }

  /** A `font_size` value holding a 32-bit number, with white space around it, sets
      the font to that size when it is positive and leaves the font alone otherwise;
      so does a value with an ideographic space before it. */
  lemma FontSizeLine(current: int, n: int)
    requires IntMin <= n <= IntMax
    ensures PixelSize(current, ToInt(Trim(" " + IntToString(n) + " "))) == if n > 0 then n else current
    ensures PixelSize(current, ToInt(Trim([0x3000 as char] + IntToString(n)))) == if n > 0 then n else current
  {
    var s := IntToString(n);
    ToIntIntToString(n);
    IntToStringPlain(n);
    ToIntIgnoresSurroundingSpace(s);
    TrimUnchanged(Trim(" " + s + " "));
    var w := [0x3000 as char] + s;
    assert w[1..] == s;
    TrimFront(w);
  }

  /** The members of one scheme (`h_...` or `v_...`): the layout read from the file,
      the overlay table, the nine-patch skin and the insets (`opt opb opl opr`) the
      overlays add around it. */
  datatype SchemeMembers = SchemeMembers(layout: Layout, overlays: OverlayTable, skin: PreEditBarSkin, insets: Insets)

  /** The members of the engine that are values (everything but the masks and the icon slots). */
  datatype Members = Members(h: SchemeMembers, v: SchemeMembers, statusBarSkin: Pixmap, style: TextStyle)

  /** The fonts, line heights and colours after a load: the preedit font takes the
      English family, the candidate font the Chinese one, both bold at the size read;
      the label font is the candidate font; heights come from the metrics; the colours
      are the file's colour strings in `#` notation, labels sharing the candidate colour. */
  function LoadedStyle(old_: TextStyle, d: DisplayConfig, m: Metrics): (r: TextStyle)
    ensures r.labelFont == r.candidateFont && r.labelColor == r.candidateColor
    ensures r.preEditFont.bold && r.candidateFont.bold
    ensures r.preEditFont.family == d.fontEn && r.candidateFont.family == d.fontCh
    ensures d.fontPixelSize > 0 ==> r.preEditFont.pixelSize == d.fontPixelSize && r.candidateFont.pixelSize == d.fontPixelSize
    ensures d.fontPixelSize <= 0 ==>
              r.preEditFont.pixelSize == old_.preEditFont.pixelSize && r.candidateFont.pixelSize == old_.candidateFont.pixelSize
    ensures r.preEditFontHeight == m.height(r.preEditFont)
    ensures r.labelFontHeight == m.height(r.labelFont) && r.candidateFontHeight == m.height(r.candidateFont)
    ensures r.preEditColor == NormalizeColor(d.pinyinColor) && r.candidateColor == NormalizeColor(d.zhongwenColor)
  {
    var pre := Font(d.fontEn, PixelSize(old_.preEditFont.pixelSize, d.fontPixelSize), true);
    var cand := Font(d.fontCh, PixelSize(old_.candidateFont.pixelSize, d.fontPixelSize), true);
    var zh := NormalizeColor(d.zhongwenColor);
    TextStyle(pre, cand, cand, m.height(pre), m.height(cand), m.height(cand), NormalizeColor(d.pinyinColor), zh, zh)
  }

  /** The members after the line loop ended in state `st`: the cuts normalised, the
      skins sliced at them, the overlay tables and the status-bar skin as read, the
      insets computed from the overlays, and the text style set up. */
  function AfterLoad(old_: Members, st: ParseState, m: Metrics): (r: Members)
    requires ValidState(st)
    ensures ValidSkin(r.h.skin) && ValidSkin(r.v.skin)
    ensures r.h.layout.hsl <= r.h.layout.hsr && r.h.layout.vst <= r.h.layout.vsb
    ensures r.v.layout.hsl <= r.v.layout.hsr && r.v.layout.vst <= r.v.layout.vsb
    ensures r.h.insets == Surrounding(Values(r.h.overlays)) && r.v.insets == Surrounding(Values(r.v.overlays))
  {
    Members(LoadedScheme(st.h), LoadedScheme(st.v), st.statusBarSkin, LoadedStyle(old_.style, st.display, m))
  }

  /** One scheme after the loop: the cuts normalised against the skin image, the
      image sliced at them, the overlay table as read and its insets. */
  function LoadedScheme(s: SchemeState): (r: SchemeMembers)
    requires ValidScheme(s)
    ensures ValidSkin(r.skin) && r.overlays == s.overlays
  {
    var l := NormalizeCuts(s.layout, s.skin);
    SchemeMembers(l, s.overlays, MakeSkin(s.skin, l.hsl, l.hsr, l.vst, l.vsb), Surrounding(Values(s.overlays)))
  }

  /** A successful load depends on the previous members only through the layouts
      (whose keys a file may leave out), the status-bar skin, the icon slots and the
      pixel sizes of the preedit and candidate fonts (kept when the file's size is not
      positive): the overlays, skins and insets of an earlier theme are dropped, and so
      are its font families, weights, line heights and colours. */
  lemma LoadForgetsOverlays(a: Members, b: Members, pwpos: seq<Point>, lines: seq<string>, images: Images, m: Metrics)
    requires |pwpos| == 6 && ValidPixmap(a.statusBarSkin) && ValidImages(images)
    requires a.h.layout == b.h.layout && a.v.layout == b.v.layout
    requires a.statusBarSkin == b.statusBarSkin
    requires a.style.preEditFont.pixelSize == b.style.preEditFont.pixelSize
    requires a.style.candidateFont.pixelSize == b.style.candidateFont.pixelSize
    ensures var sa := ParseLines(InitialState(a.h.layout, a.v.layout, a.statusBarSkin, pwpos), lines, images);
      var sb := ParseLines(InitialState(b.h.layout, b.v.layout, b.statusBarSkin, pwpos), lines, images);
      ValidState(sa) && AfterLoad(a, sa, m) == AfterLoad(b, sb, m)
  {
    var st0 := InitialState(a.h.layout, a.v.layout, a.statusBarSkin, pwpos);
    ParseLinesValid(st0, lines, images);
  }

  /** `ThemerSogou`. */
  class ThemerSogou {
    /** The horizontal scheme's members (`h_hstm`, ..., `h_overlays`, `h_preEditBarSkin`, `h_opt`, ...). */
    var h: SchemeMembers
    /** The vertical scheme's members. */
    var v: SchemeMembers
    var statusBarSkin: Pixmap
    /** `m_pwpos`: the places of the first six status-bar icons. */
    const pwpos: array<Point>
    /** The three fonts, their three heights and the three text colours. */
    var style: TextStyle
    var preEditBarMask: Region
    var statusBarMask: Region

    ghost predicate Valid()
      reads this
    {
      && pwpos.Length == 6
      && ValidSkin(h.skin) && ValidSkin(v.skin) && ValidPixmap(statusBarSkin)
    }

    function Value(): Members
      reads this
    {
      Members(h, v, statusBarSkin, style)
    }

    /** The layout, skin, insets and overlays of the scheme in use. */
    function Scheme(vertical: bool): Layout reads this { if vertical then v.layout else h.layout }
    function SchemeSkin(vertical: bool): PreEditBarSkin reads this { if vertical then v.skin else h.skin }
    function SchemeInsets(vertical: bool): Insets reads this { if vertical then v.insets else h.insets }
    function SchemeOverlays(vertical: bool): OverlayTable reads this { if vertical then v.overlays else h.overlays }

    /** The engine before any theme is loaded: empty skins, tables and masks, null
        pixmaps, icon slots at the origin, default fonts and colours.  The integer
        members, which the constructor leaves unset, start at 0. */
    constructor(defaultFont: Font)
      ensures Valid() && fresh(pwpos)
      ensures h.skin == EmptySkin && v.skin == EmptySkin && h.overlays == [] && v.overlays == []
      ensures statusBarSkin == Null && pwpos[..] == seq(6, _ => Point(0, 0))
      ensures style.preEditFont == defaultFont && style.labelFont == defaultFont && style.candidateFont == defaultFont
    {
      var zero := Layout(0, 0, 0, 0, 0, 0, 0, 0, 0, 0, 0, 0, 0, 0);
      h := SchemeMembers(zero, [], EmptySkin, NoInsets);
      v := SchemeMembers(zero, [], EmptySkin, NoInsets);
      statusBarSkin := Null;
      pwpos := new Point[6](_ => Point(0, 0));
      style := TextStyle(defaultFont, defaultFont, defaultFont, 0, 0, 0, "", "", "");
      preEditBarMask, statusBarMask := EmptyRegion, EmptyRegion;
      new;
      assert pwpos[..] == seq(6, _ => Point(0, 0));
    }

    // -------------------------------------------------------------------------
    // Loading.

    /** `loadTheme`: fails, changing nothing, when the file is missing, is not a zip
        archive or has no `skin.ini`; otherwise reads the lines of `skin.ini` in order
        (writing the icon slots as it goes) and sets up skins, insets and text style. */
    method LoadTheme(file: ThemeFile, m: Metrics) returns (ok: bool)
      requires Valid()
      requires file.Archive? ==> ValidImages(file.images)
      modifies this, pwpos
      ensures Valid()
      ensures ok == (file.Archive? && file.skinIni.Some?)
      ensures !ok ==> unchanged(this) && unchanged(pwpos)
      ensures ok ==>
        var st := ParseLines(InitialState(old(h.layout), old(v.layout), old(statusBarSkin), old(pwpos[..])), file.skinIni.value, file.images);
        && ValidState(st)
        && Value() == AfterLoad(old(Value()), st, m)
        && pwpos[..] == st.pwpos
        && preEditBarMask == old(preEditBarMask) && statusBarMask == old(statusBarMask)
    {
      if !file.Archive? || file.skinIni.None? {
        return false;
      }
      LoadSkinIni(file.skinIni.value, file.images, m);
      return true;
    }

    /** `loadTheme` once `skin.ini` is found: the line loop, then the set-up of the
        members from the state it ends in. */
    method LoadSkinIni(lines: seq<string>, images: Images, m: Metrics)
      requires Valid() && ValidImages(images)
      modifies this, pwpos
      ensures Valid()
      ensures var st := ParseLines(InitialState(old(h.layout), old(v.layout), old(statusBarSkin), old(pwpos[..])), lines, images);
        && ValidState(st)
        && Value() == AfterLoad(old(Value()), st, m)
        && pwpos[..] == st.pwpos
        && preEditBarMask == old(preEditBarMask) && statusBarMask == old(statusBarMask)
    {
      var st := ReadLines(InitialState(h.layout, v.layout, statusBarSkin, pwpos[..]), lines, images, pwpos);
      SetUp(st, m);
    }

    /** The member set-up of `loadTheme` once the line loop has ended in `st`. */
    method SetUp(st: ParseState, m: Metrics)
      requires Valid() && ValidState(st)
      modifies this
      ensures Valid() && Value() == AfterLoad(old(Value()), st, m)
      ensures preEditBarMask == old(preEditBarMask) && statusBarMask == old(statusBarMask)
    {
      var r := LoadMembers(Value(), st, m);
      Store(r);
    }

    /** Sets every member from `r`, leaving the icon slots and the masks alone. */
    method Store(r: Members)
      requires pwpos.Length == 6 && ValidSkin(r.h.skin) && ValidSkin(r.v.skin) && ValidPixmap(r.statusBarSkin)
      modifies this`h, this`v, this`statusBarSkin, this`style
      ensures Valid() && Value() == r
      ensures preEditBarMask == old(preEditBarMask) && statusBarMask == old(statusBarMask)
    {
      h, v, statusBarSkin, style := r.h, r.v, r.statusBarSkin, r.style;
    }

    // -------------------------------------------------------------------------
    // Sizes and layout.

    /** `sizeHintPreEditBar`. */
    method SizeHintPreEditBar(wd: PreEditBarWidget, c: Settings, m: Metrics) returns (r: Size)
      ensures r == SizeHint(SchemeSkin(c.verticalPreeditBar), Scheme(c.verticalPreeditBar),
                            SchemeInsets(c.verticalPreeditBar), wd, c.verticalPreeditBar,
                            c.enablePreeditResizing, style, m)
    {
      var vertical := c.verticalPreeditBar;
      r := ComputeSizeHint(SchemeSkin(vertical), Scheme(vertical), SchemeInsets(vertical), wd, vertical,
                           c.enablePreeditResizing, style, m);
    }

    /** `sizeHintStatusBar`: the status bar is as large as its skin. */
    method SizeHintStatusBar() returns (r: Size)
      ensures r.w == statusBarSkin.width && r.h == statusBarSkin.height
    {
      r := statusBarSkin.GetSize();
    }

    /** `layoutStatusBar`: each of the first six items is placed at its icon slot with
        its maximum size; further items keep their place. */
    method LayoutStatusBar(layout: Bars.StatusBarLayout)
      requires Valid()
      modifies layout
      ensures |layout.items| == |old(layout.items)|
      ensures forall i :: 0 <= i < |layout.items| ==>
        layout.items[i] == if i < 6
          then old(layout.items[i]).(geometry := IconRect(pwpos[i], old(layout.items[i]).maximumSize))
          else old(layout.items[i])
    {
      var availableCount := Min(|layout.items|, 6);
      var i := 0;
      while i < availableCount
        invariant 0 <= i <= availableCount
        invariant |layout.items| == |old(layout.items)|
        invariant forall j :: 0 <= j < |layout.items| ==>
          layout.items[j] == if j < i
            then old(layout.items[j]).(geometry := IconRect(pwpos[j], old(layout.items[j]).maximumSize))
            else old(layout.items[j])
      {
        var item := layout.items[i];
        layout.items := layout.items[i := item.(geometry := IconRect(pwpos[i], item.maximumSize))];
        i := i + 1;
      }
    }

    // -------------------------------------------------------------------------
    // Resizing and masks.

    /** `resizePreEditBar`: the skin of the scheme in use is fitted to the size, and
        the mask is rebuilt for the new size when a setting uses it. */
    method ResizePreEditBar(size: Size, c: Settings, resample: Resampler)
      requires Valid()
      requires NeedsMask(c) ==> TilingTerminates(SchemeSkin(c.verticalPreeditBar), Scheme(c.verticalPreeditBar), size)
      modifies this
      ensures Valid()
      ensures var vertical, l := c.verticalPreeditBar, old(Scheme(c.verticalPreeditBar));
        && SchemeSkin(vertical) == ResizedSkin(old(SchemeSkin(vertical)), l.hstm, l.vstm, size, resample)
        && Value() == old(Value()).(h := old(h).(skin := h.skin), v := old(v).(skin := v.skin))
        && SchemeSkin(!vertical) == old(SchemeSkin(!vertical))
        && statusBarMask == old(statusBarMask)
        && (NeedsMask(c) ==>
              TilingTerminates(SchemeSkin(vertical), l, size)
              && SameRegion(preEditBarMask, PreEditBarMaskOf(SchemeSkin(vertical), l, SchemeInsets(vertical), Values(SchemeOverlays(vertical)), size)))
        && (!NeedsMask(c) ==> preEditBarMask == old(preEditBarMask))
    {
      var vertical := c.verticalPreeditBar;
      var skin0, l := SchemeSkin(vertical), Scheme(vertical);
      var hstm, vstm := l.hstm, l.vstm;
      var skin := ResizeSkin(skin0, hstm, vstm, size, resample);
      if vertical {
        v := v.(skin := skin);
      } else {
        h := h.(skin := skin);
      }
      ResizeKeeps(skin0, hstm, vstm, size, resample);

      if NeedsMask(c) {
        UpdatePreEditBarMask(size, vertical);
      }
    }

    /** `resizeStatusBar`: the status-bar mask is rebuilt when a setting uses it. */
    method ResizeStatusBar(size: Size, c: Settings, resample: Resampler)
      requires Valid()
      modifies this
      ensures Valid()
      ensures NeedsMask(c) ==>
                statusBarSkin == Scaled(old(statusBarSkin), size.w, size.h, resample) && statusBarMask == statusBarSkin.mask
      ensures !NeedsMask(c) ==> statusBarSkin == old(statusBarSkin) && statusBarMask == old(statusBarMask)
      ensures Value() == old(Value()).(statusBarSkin := statusBarSkin)
      ensures preEditBarMask == old(preEditBarMask)
    {
      if NeedsMask(c) {
        UpdateStatusBarMask(size, resample);
      }
    }

    /** `updateStatusBarMask`: the status-bar skin is rescaled to the size (the
        rescaled skin replaces the member) and the mask is its opacity mask. */
    method UpdateStatusBarMask(size: Size, resample: Resampler)
      requires Valid()
      modifies this
      ensures Valid()
      ensures statusBarSkin == Scaled(old(statusBarSkin), size.w, size.h, resample)
      ensures statusBarMask == statusBarSkin.mask
      ensures Value() == old(Value()).(statusBarSkin := statusBarSkin)
      ensures preEditBarMask == old(preEditBarMask)
    {
      statusBarSkin := Scaled(statusBarSkin, size.w, size.h, resample);
      statusBarMask := statusBarSkin.mask;
    }

    /** `updatePreEditBarMask`: the nine parts of the frame, tiled by the loops where
        the scheme tiles, moved to their places and united, then every overlay's mask
        united in at its offset. */
    method UpdatePreEditBarMask(size: Size, vertical: bool)
      requires TilingTerminates(SchemeSkin(vertical), Scheme(vertical), size)
      modifies this
      ensures Value() == old(Value()) && statusBarMask == old(statusBarMask)
      ensures SameRegion(preEditBarMask, PreEditBarMaskOf(SchemeSkin(vertical), Scheme(vertical), SchemeInsets(vertical),
                                                          Values(SchemeOverlays(vertical)), size))
    {
      var skin, l, ins := SchemeSkin(vertical), Scheme(vertical), SchemeInsets(vertical);
      var frame := FrameRegion(skin, l, size);
      preEditBarMask := AddOverlays(frame, FrameMask(skin, l, size), Values(SchemeOverlays(vertical)), size, ins);
    }

    /** `maskPreEditBar`: the preedit bar is given the mask of the last update. */
    method MaskPreEditBar() returns (mask: Region)
      ensures mask == preEditBarMask
    {
      mask := preEditBarMask;
    }

    /** `maskStatusBar`: the status-bar mask with the rectangle of every layout item added. */
    method MaskStatusBar(layout: Bars.StatusBarLayout) returns (mask: Region)
      ensures forall x, y ::
                mask(x, y) == (statusBarMask(x, y) || exists i :: 0 <= i < |layout.items| && Within(x, y, layout.items[i].geometry))
    {
      mask := statusBarMask;
      var items := layout.items;
      var k := 0;
      while k < |items|
        invariant 0 <= k <= |items|
        invariant forall x, y {:trigger mask(x, y)} ::
                    mask(x, y) == (statusBarMask(x, y) || exists i :: 0 <= i < k && Within(x, y, items[i].geometry))
      {
        ghost var acc := mask;
        mask := Union(mask, RectRegion(items[k].geometry));
        forall x, y ensures mask(x, y) == (statusBarMask(x, y) || exists i :: 0 <= i < k + 1 && Within(x, y, items[i].geometry)) {
          assert acc(x, y) == (statusBarMask(x, y) || exists i :: 0 <= i < k && Within(x, y, items[i].geometry));
          if Within(x, y, items[k].geometry) {
            assert exists i :: 0 <= i < k + 1 && Within(x, y, items[i].geometry);
          }
        }
        k := k + 1;
      }
    }

    // -------------------------------------------------------------------------
    // Painting.

    /** `drawPreEditBar`: the frame, the overlays, the preedit line and the lookup
        table, in order, for the scheme in use and the widget's own size. */
    method DrawPreEditBar(wd: PreEditBarWidget, c: Settings, m: Metrics) returns (ops: seq<PaintOp>)
      ensures ops == PaintList(SchemeSkin(c.verticalPreeditBar), Scheme(c.verticalPreeditBar),
                               SchemeInsets(c.verticalPreeditBar), Values(SchemeOverlays(c.verticalPreeditBar)),
                               wd, c.verticalPreeditBar, style, m)
    {
      var vertical := c.verticalPreeditBar;
      var skin, l, ins := SchemeSkin(vertical), Scheme(vertical), SchemeInsets(vertical);
      var st := style;
      var size := Size(wd.width, wd.height);
      ops := BackgroundPaint(skin, l, size);

      var more := PaintOverlays(Values(SchemeOverlays(vertical)), size, ins);
      ops := ops + more;
      more := PaintPreEdit(wd, l, ins, st, m);
      ops := ops + more;
      if wd.lookuptableVisible {
        var x0, y := ins.opl + l.zl, LookupTop(l, ins, st);
        if vertical {
          more := PaintVerticalRows(wd, x0, y, st, m);
        } else {
          more := PaintHorizontalRows(wd, x0, y, st, m);
        }
        ops := ops + more;
      }
    }
  }

  /** The overlay loop of `drawPreEditBar`: each overlay at its offset, in table order. */
  method PaintOverlays(overlays: seq<OverlayPixmap>, size: Size, ins: Insets) returns (ops: seq<PaintOp>)
    ensures ops == OverlayOps(overlays, size, ins)
  {
    ops := [];
    var k := 0;
    while k < |overlays|
      invariant 0 <= k <= |overlays|
      invariant ops == OverlayOps(overlays[..k], size, ins)
    {
      var op := overlays[k];
      var d := OverlayOffset(op, size, ins);
      ops := ops + [DrawPixmap(d.x, d.y, op.pixmap)];
      assert overlays[..k + 1][..k] == overlays[..k];
      k := k + 1;
    }
    assert overlays[..k] == overlays;
  }

  /** The preedit line of `drawPreEditBar`: the text and, when the preedit is
      visible, the caret after the text before the cursor. */
  method PaintPreEdit(wd: PreEditBarWidget, l: Layout, ins: Insets, st: TextStyle, m: Metrics) returns (ops: seq<PaintOp>)
    ensures ops == PreEditOps(wd, l, ins, st, m)
  {
    ops := [];
    if wd.preeditVisible || wd.auxVisible {
      var x0, y0 := ins.opl + l.pl, ins.opt + l.pt;
      ops := [DrawText(x0, y0, wd.width - l.pl - l.pr, st.preEditFontHeight, st.preEditFont, st.preEditColor, wd.text + wd.auxText)];
      if wd.preeditVisible {
        var pixelsWide := m.width(st.preEditFont, Left(wd.text, wd.cursorPos));
        ops := ops + [DrawLine(x0 + pixelsWide, y0, x0 + pixelsWide, y0 + st.preEditFontHeight)];
      }
    }
  }

  /** The vertical lookup table of `drawPreEditBar`: one entry per row. */
  method PaintVerticalRows(wd: PreEditBarWidget, x0: int, y0: int, st: TextStyle, m: Metrics) returns (ops: seq<PaintOp>)
    ensures ops == VerticalRows(wd, EntryCount(wd), x0, y0, st, m)
  {
    ops := [];
    var hh := Max(st.labelFontHeight, st.candidateFontHeight);
    var count := EntryCount(wd);
    var y := y0;
    var i := 0;
    while i < count
      invariant 0 <= i <= count
      invariant ops == VerticalRows(wd, i, x0, y0, st, m)
      invariant y == y0 + i * hh
    {
      var x := x0;
      var w := m.width(st.labelFont, wd.labels[i]);
      ops := ops + [DrawText(x, y, w, hh, st.labelFont, st.labelColor, wd.labels[i])];
      x := x + w;
      var t := Trim(wd.candidates[i]);
      w := m.width(st.candidateFont, t);
      ops := ops + [DrawText(x, y, w, hh, st.candidateFont, st.candidateColor, t)];
      y := y + hh;
      i := i + 1;
    }
  }

  /** The horizontal lookup table of `drawPreEditBar`: the entries one after the other. */
  method PaintHorizontalRows(wd: PreEditBarWidget, x0: int, y0: int, st: TextStyle, m: Metrics) returns (ops: seq<PaintOp>)
    ensures ops == HorizontalRows(wd, EntryCount(wd), x0, y0, st, m)
  {
    ops := [];
    var hh := Max(st.labelFontHeight, st.candidateFontHeight);
    var count := EntryCount(wd);
    var x := x0;
    var i := 0;
    while i < count
      invariant 0 <= i <= count
      invariant ops == HorizontalRows(wd, i, x0, y0, st, m)
      invariant x == EntryX(wd, i, x0, st, m)
    {
      var w := m.width(st.labelFont, wd.labels[i]);
      ops := ops + [DrawText(x, y0, w, hh, st.labelFont, st.labelColor, wd.labels[i])];
      x := x + w;
      var t := Trim(wd.candidates[i]) + " ";
      w := m.width(st.candidateFont, t);
      ops := ops + [DrawText(x, y0, w, hh, st.candidateFont, st.candidateColor, t)];
      x := x + w;
      i := i + 1;
    }
  }

  /** The computation of `sizeHintPreEditBar` on the members of the scheme in use. */
  method ComputeSizeHint(skin: PreEditBarSkin, l: Layout, ins: Insets, wd: PreEditBarWidget,
                         vertical: bool, resizing: bool, st: TextStyle, m: Metrics) returns (r: Size)
    ensures r == SizeHint(skin, l, ins, wd, vertical, resizing, st, m)
  {
    var w, hh := skin.skinw, skin.skinh;
    var widgetsh := l.pt + l.pb + l.zt + l.zb;
    var pinyinauxw := m.width(st.preEditFont, wd.text + wd.auxText);
    w := Max(pinyinauxw + l.pl + l.pr + ins.opl + ins.opr, w);
    widgetsh := widgetsh + st.preEditFontHeight;
    var lookuptablew;
    if vertical {
      lookuptablew, widgetsh := VerticalLookup(wd, widgetsh, st, m);
    } else {
      var tmp := HorizontalLookup(wd);
      lookuptablew := m.width(st.candidateFont, tmp);
      widgetsh := widgetsh + st.candidateFontHeight;
    }
    w := Max(lookuptablew + l.zl + l.zr + ins.opl + ins.opr, w);
    hh := Max(widgetsh + ins.opt + ins.opb, hh);
    SizeHintOf(skin, l, ins, wd, vertical, resizing, st, m, pinyinauxw, lookuptablew, widgetsh);
    if !resizing {
      w := AlignWidth(w, skin.skinw);
    }
    r := Size(w, hh);
  }

  /** `SizeHint` in terms of the three measured quantities. */
  lemma SizeHintOf(skin: PreEditBarSkin, l: Layout, ins: Insets, wd: PreEditBarWidget,
                   vertical: bool, resizing: bool, st: TextStyle, m: Metrics, pw: int, lw: int, ch: int)
    requires pw == m.width(st.preEditFont, wd.text + wd.auxText)
    requires lw == LookupWidth(wd, vertical, st, m) && ch == ContentHeight(wd, l, vertical, st)
    ensures var w2 := Max(lw + l.zl + l.zr + ins.opl + ins.opr, Max(pw + l.pl + l.pr + ins.opl + ins.opr, skin.skinw));
      SizeHint(skin, l, ins, wd, vertical, resizing, st, m)
        == Size(if resizing then w2 else AlignWidth(w2, skin.skinw), Max(ch + ins.opt + ins.opb, skin.skinh))
  {
  }

  /** The vertical lookup-table loop of `sizeHintPreEditBar`: the widest entry, and
      one candidate line of height per entry. */
  method VerticalLookup(wd: PreEditBarWidget, widgetsh0: int, st: TextStyle, m: Metrics) returns (lookuptablew: int, widgetsh: int)
    ensures lookuptablew == VerticalLookupWidth(wd, EntryCount(wd), st, m)
    ensures widgetsh == widgetsh0 + EntryCount(wd) * st.candidateFontHeight
  {
    var count := EntryCount(wd);
    lookuptablew, widgetsh := 0, widgetsh0;
    var i := 0;
    while i < count
      invariant 0 <= i <= count
      invariant lookuptablew == VerticalLookupWidth(wd, i, st, m)
      invariant widgetsh == widgetsh0 + i * st.candidateFontHeight
    {
      var tmp := Trim(wd.labels[i]) + Trim(wd.candidates[i]);
      lookuptablew := Max(m.width(st.candidateFont, tmp), lookuptablew);
      widgetsh := widgetsh + st.candidateFontHeight;
      i := i + 1;
    }
  }

  /** The horizontal lookup-table loop of `sizeHintPreEditBar`: the string measured. */
  method HorizontalLookup(wd: PreEditBarWidget) returns (tmp: string)
    ensures tmp == HorizontalLookupText(wd, EntryCount(wd))
  {
    var count := EntryCount(wd);
    tmp := Concat(wd.labels);
    var i := 0;
    while i < count
      invariant 0 <= i <= count
      invariant tmp == HorizontalLookupText(wd, i)
    {
      tmp := tmp + Trim(wd.labels[i]) + Trim(wd.candidates[i]);
      i := i + 1;
    }
  }

  /** The member set-up of `loadTheme` after the line loop, step by step. */
  method LoadMembers(old_: Members, st: ParseState, m: Metrics) returns (r: Members)
    requires ValidState(st)
    ensures ValidSkin(r.h.skin) && ValidSkin(r.v.skin) && ValidPixmap(r.statusBarSkin)
    ensures r == AfterLoad(old_, st, m)
  {
    var h := LoadScheme(st.h);
    var v := LoadScheme(st.v);

    var preEditFont := Font(st.display.fontEn, PixelSize(old_.style.preEditFont.pixelSize, st.display.fontPixelSize), true);
    var candidateFont := Font(st.display.fontCh, PixelSize(old_.style.candidateFont.pixelSize, st.display.fontPixelSize), true);
    var labelFont := candidateFont;
    var preEditColor := NormalizeColor(st.display.pinyinColor);
    var candidateColor := NormalizeColor(st.display.zhongwenColor);
    var style := TextStyle(preEditFont, labelFont, candidateFont,
                           m.height(preEditFont), m.height(labelFont), m.height(candidateFont),
                           preEditColor, candidateColor, candidateColor);
    r := Members(h, v, st.statusBarSkin, style);
  }

  /** The set-up of one scheme in `loadTheme`: the cuts, the skin, the insets. */
  method LoadScheme(s: SchemeState) returns (r: SchemeMembers)
    requires ValidScheme(s)
    ensures r == LoadedScheme(s)
  {
    var l := NormalizeCuts(s.layout, s.skin);
    var skin := MakeSkin(s.skin, l.hsl, l.hsr, l.vst, l.vsb);
    var opt, opb, opl, opr := CalculateOverlaySurrounding(s.overlays);
    r := SchemeMembers(l, s.overlays, skin, Insets(opt, opb, opl, opr));
  }

  /** The line loop of `loadTheme`: each line read in turn, the icon slots written
      into the member array as the lines store them. */
  method ReadLines(st0: ParseState, lines: seq<string>, images: Images, pwpos: array<Point>) returns (st: ParseState)
    requires ValidState(st0) && ValidImages(images) && st0.pwpos == pwpos[..]
    modifies pwpos
    ensures ValidState(st) && st == ParseLines(st0, lines, images) && st.pwpos == pwpos[..]
  {
    st := st0;
    var k := 0;
    while k < |lines|
      invariant 0 <= k <= |lines|
      invariant ValidState(st)
      invariant st == ParseLines(st0, lines[..k], images)
      invariant st.pwpos == pwpos[..]
    {
      var next := ApplyLine(st, lines[k], images);
      ApplyLineSlot(st, lines[k], images);
      ApplyLineValid(st, lines[k], images);
      if next.slot > st.slot {
        pwpos[st.slot] := next.pwpos[st.slot];
      }
      assert lines[..k + 1][..k] == lines[..k];
      st := next;
      k := k + 1;
    }
    assert lines[..k] == lines;
  }

  /** The skin fitting of `resizePreEditBar`: the edges across, the edges down, the centre. */
  method ResizeSkin(skin0: PreEditBarSkin, hstm: int, vstm: int, size: Size, resample: Resampler) returns (skin: PreEditBarSkin)
    requires ValidSkin(skin0)
    ensures skin == ResizedSkin(skin0, hstm, vstm, size, resample)
  {
    var leftrightheight := size.h - skin0.topleft.height - skin0.bottomleft.height;
    var topbottomwidth := size.w - skin0.topleft.width - skin0.topright.width;
    skin := ResizeTopBottom(skin0, hstm, size, resample);
    skin := ResizeLeftRight(skin, vstm, size, resample);
    var center := ResizeCenter(skin.center, hstm, vstm, topbottomwidth, leftrightheight, resample);
    skin := skin.(center := center);
  }

  /** The top and bottom edges of `resizePreEditBar`. */
  method ResizeTopBottom(skin0: PreEditBarSkin, hstm: int, size: Size, resample: Resampler) returns (skin: PreEditBarSkin)
    requires ValidPixmap(skin0.top) && ValidPixmap(skin0.bottom)
    ensures skin == ResizedTopBottom(skin0, hstm, size, resample)
  {
    var topbottomwidth := size.w - skin0.topleft.width - skin0.topright.width;
    skin := skin0;
    if hstm == 0 {
      if skin.top.width != topbottomwidth {
        skin := skin.(top := Scaled(skin.top, topbottomwidth, skin.top.height, resample),
                      bottom := Scaled(skin.bottom, topbottomwidth, skin.bottom.height, resample));
      }
    }
  }

  /** The left and right edges of `resizePreEditBar`. */
  method ResizeLeftRight(skin0: PreEditBarSkin, vstm: int, size: Size, resample: Resampler) returns (skin: PreEditBarSkin)
    requires ValidPixmap(skin0.left) && ValidPixmap(skin0.right)
    ensures skin == ResizedLeftRight(skin0, vstm, size, resample)
  {
    var leftrightheight := size.h - skin0.topleft.height - skin0.bottomleft.height;
    skin := skin0;
    if vstm == 0 {
      if skin.left.height != leftrightheight {
        skin := skin.(left := Scaled(skin.left, skin.left.width, leftrightheight, resample),
                      right := Scaled(skin.right, skin.right.width, leftrightheight, resample));
      }
    }
  }

  /** The centre of `resizePreEditBar`. */
  method ResizeCenter(c: Pixmap, hstm: int, vstm: int, topbottomwidth: int, leftrightheight: int, resample: Resampler) returns (center: Pixmap)
    requires ValidPixmap(c)
    ensures center == ResizedCenter(c, hstm, vstm, topbottomwidth, leftrightheight, resample)
  {
    center := c;
    if hstm == 0 {
      if vstm == 0 {
        if center.width != topbottomwidth || center.height != leftrightheight {
          center := Scaled(center, topbottomwidth, leftrightheight, resample);
        }
      } else {
        if center.width != topbottomwidth {
          center := Scaled(center, topbottomwidth, center.height, resample);
        }
      }
    } else {
      if vstm == 0 {
        if center.height != leftrightheight {
          center := Scaled(center, center.width, leftrightheight, resample);
        }
      }
    }
  }

  /** The rectangle of a status-bar icon: at its slot, with the item's maximum size. */
  function IconRect(p: Point, s: Size): (r: Rect)
    ensures Within(p.x, p.y, r) <==> s.w > 0 && s.h > 0
  {
    Rect(p.x, p.y, s.w, s.h)
  }

  /** The frame part of `updatePreEditBarMask`: corners, edges and centre, each
      built as the source builds it, moved to its place, and united. */
  method FrameRegion(skin: PreEditBarSkin, l: Layout, size: Size) returns (mask: Region)
    requires TilingTerminates(skin, l, size)
    ensures SameRegion(mask, FrameMask(skin, l, size))
  {
    var leftrightheight := LeftRightHeight(skin, size);
    var topbottomwidth := TopBottomWidth(skin, size);

    var topleft := skin.topleft.mask;
    var topright := Translate(skin.topright.mask, l.hsl + topbottomwidth, 0);
    var bottomleft := Translate(skin.bottomleft.mask, 0, l.vst + leftrightheight);
    var bottomright := Translate(skin.bottomright.mask, l.hsl + topbottomwidth, l.vst + leftrightheight);

    var top0, bottom0 := EdgesAcross(skin, l, size);
    var left0, right0 := EdgesDown(skin, l, size);
    var center0 := CenterRegion(skin, l, size);
    FramePartsSame(skin, l, size, top0, left0, center0, right0, bottom0);

    var top := Translate(top0, l.hsl, 0);
    var left := Translate(left0, 0, l.vst);
    var center := Translate(center0, l.hsl, l.vst);
    var right := Translate(right0, l.hsl + topbottomwidth, l.vst);
    var bottom := Translate(bottom0, l.hsl, l.vst + leftrightheight);

    // The union in the source's order.
    mask := Union(Union(Union(Union(Union(Union(Union(Union(
      topleft, top), topright), left), center), right), bottomleft), bottom), bottomright);
  }

  /** The frame united from parts alike to the edge and centre masks is alike to the frame mask. */
  lemma FramePartsSame(skin: PreEditBarSkin, l: Layout, size: Size,
                       top0: Region, left0: Region, center0: Region, right0: Region, bottom0: Region)
    requires TilingTerminates(skin, l, size)
    requires SameRegion(top0, TopMask(skin, l, size)) && SameRegion(bottom0, BottomMask(skin, l, size))
    requires SameRegion(left0, LeftMask(skin, l, size)) && SameRegion(right0, RightMask(skin, l, size))
    requires SameRegion(center0, CenterMask(skin, l, size))
    ensures SameRegion(
        Union(Union(Union(Union(Union(Union(Union(Union(
          skin.topleft.mask,
          Translate(top0, l.hsl, 0)),
          Translate(skin.topright.mask, l.hsl + TopBottomWidth(skin, size), 0)),
          Translate(left0, 0, l.vst)),
          Translate(center0, l.hsl, l.vst)),
          Translate(right0, l.hsl + TopBottomWidth(skin, size), l.vst)),
          Translate(skin.bottomleft.mask, 0, l.vst + LeftRightHeight(skin, size))),
          Translate(bottom0, l.hsl, l.vst + LeftRightHeight(skin, size))),
          Translate(skin.bottomright.mask, l.hsl + TopBottomWidth(skin, size), l.vst + LeftRightHeight(skin, size))),
        FrameMask(skin, l, size))
  {
    var tbw, lrh := TopBottomWidth(skin, size), LeftRightHeight(skin, size);
    assert SameRegion(
        Union(Union(Union(Union(Union(Union(Union(Union(
          skin.topleft.mask,
          Translate(top0, l.hsl, 0)),
          Translate(skin.topright.mask, l.hsl + tbw, 0)),
          Translate(left0, 0, l.vst)),
          Translate(center0, l.hsl, l.vst)),
          Translate(right0, l.hsl + tbw, l.vst)),
          Translate(skin.bottomleft.mask, 0, l.vst + lrh)),
          Translate(bottom0, l.hsl, l.vst + lrh)),
          Translate(skin.bottomright.mask, l.hsl + tbw, l.vst + lrh)),
        Union(Union(Union(Union(Union(Union(Union(Union(
          skin.topleft.mask,
          Translate(TopMask(skin, l, size), l.hsl, 0)),
          Translate(skin.topright.mask, l.hsl + tbw, 0)),
          Translate(LeftMask(skin, l, size), 0, l.vst)),
          Translate(CenterMask(skin, l, size), l.hsl, l.vst)),
          Translate(RightMask(skin, l, size), l.hsl + tbw, l.vst)),
          Translate(skin.bottomleft.mask, 0, l.vst + lrh)),
          Translate(BottomMask(skin, l, size), l.hsl, l.vst + lrh)),
          Translate(skin.bottomright.mask, l.hsl + tbw, l.vst + lrh))) by {
      TranslateSame(top0, TopMask(skin, l, size), l.hsl, 0);
      TranslateSame(left0, LeftMask(skin, l, size), 0, l.vst);
      TranslateSame(center0, CenterMask(skin, l, size), l.hsl, l.vst);
      TranslateSame(right0, RightMask(skin, l, size), l.hsl + tbw, l.vst);
      TranslateSame(bottom0, BottomMask(skin, l, size), l.hsl, l.vst + lrh);
      FrameUnionSame(skin.topleft.mask, Translate(skin.topright.mask, l.hsl + tbw, 0),
                     Translate(skin.bottomleft.mask, 0, l.vst + lrh),
                     Translate(skin.bottomright.mask, l.hsl + tbw, l.vst + lrh),
                     Translate(top0, l.hsl, 0), Translate(left0, 0, l.vst), Translate(center0, l.hsl, l.vst),
                     Translate(right0, l.hsl + tbw, l.vst), Translate(bottom0, l.hsl, l.vst + lrh),
                     Translate(TopMask(skin, l, size), l.hsl, 0), Translate(LeftMask(skin, l, size), 0, l.vst),
                     Translate(CenterMask(skin, l, size), l.hsl, l.vst),
                     Translate(RightMask(skin, l, size), l.hsl + tbw, l.vst),
                     Translate(BottomMask(skin, l, size), l.hsl, l.vst + lrh));
    }
    FrameMaskParts(skin, l, size);
  }

  /** Uniting the nine frame parts in the source's order gives alike regions when
      the five edge and centre parts are alike. */
  lemma FrameUnionSame(tl: Region, tr: Region, bl: Region, br: Region,
                       t: Region, le: Region, c: Region, r: Region, b: Region,
                       t1: Region, le1: Region, c1: Region, r1: Region, b1: Region)
    requires SameRegion(t, t1) && SameRegion(le, le1) && SameRegion(c, c1)
    requires SameRegion(r, r1) && SameRegion(b, b1)
    ensures SameRegion(
      Union(Union(Union(Union(Union(Union(Union(Union(tl, t), tr), le), c), r), bl), b), br),
      Union(Union(Union(Union(Union(Union(Union(Union(tl, t1), tr), le1), c1), r1), bl), b1), br))
  {
    forall x, y ensures
      Union(Union(Union(Union(Union(Union(Union(Union(tl, t), tr), le), c), r), bl), b), br)(x, y) ==
      Union(Union(Union(Union(Union(Union(Union(Union(tl, t1), tr), le1), c1), r1), bl), b1), br)(x, y)
    {
      assert t(x, y) == t1(x, y) && le(x, y) == le1(x, y) && c(x, y) == c1(x, y);
      assert r(x, y) == r1(x, y) && b(x, y) == b1(x, y);
    }
  }

  /** The overlay loop of `updatePreEditBarMask`: the placed mask of each overlay
      united into the accumulator in table order. */
  method AddOverlays(acc0: Region, ghost base: Region, overlays: seq<OverlayPixmap>, size: Size, ins: Insets)
    returns (acc: Region)
    requires SameRegion(acc0, base)
    ensures SameRegion(acc, WithOverlays(base, overlays, size, ins))
  {
    acc := acc0;
    var k := 0;
    while k < |overlays|
      invariant 0 <= k <= |overlays|
      invariant SameRegion(acc, WithOverlays(base, overlays[..k], size, ins))
    {
      var op := overlays[k];
      var d := OverlayOffset(op, size, ins);
      var opRegion := Translate(op.pixmap.mask, d.x, d.y);
      assert overlays[..k + 1][..k] == overlays[..k];
      UnionSame(acc, opRegion, WithOverlays(base, overlays[..k], size, ins), PlacedOverlay(op, size, ins));
      acc := Union(acc, opRegion);
      k := k + 1;
    }
    assert overlays[..k] == overlays;
  }

  /** The top and bottom edges before translation: the masks in stretch mode, or
      tiled together across the span by one loop and clipped. */
  method EdgesAcross(skin: PreEditBarSkin, l: Layout, size: Size) returns (top: Region, bottom: Region)
    requires TilingTerminates(skin, l, size)
    ensures SameRegion(top, TopMask(skin, l, size)) && SameRegion(bottom, BottomMask(skin, l, size))
  {
    var topbottomwidth := TopBottomWidth(skin, size);
    var middlepixw := l.hsr - l.hsl;
    if l.hstm == 0 {
      top, bottom := skin.top.mask, skin.bottom.mask;
    } else {
      top := RectRegion(Rect(0, 0, topbottomwidth, l.vst));
      bottom := RectRegion(Rect(0, 0, topbottomwidth, skin.bottom.height));
      var toppixRegion, bottompixRegion := TilePair(skin.top.mask, skin.bottom.mask, topbottomwidth, middlepixw, middlepixw, 0);
      top := Intersect(top, toppixRegion);
      bottom := Intersect(bottom, bottompixRegion);
    }
  }

  /** The left and right edges before translation: the masks in stretch mode, or
      tiled together down the span by one loop and clipped. */
  method EdgesDown(skin: PreEditBarSkin, l: Layout, size: Size) returns (left: Region, right: Region)
    requires TilingTerminates(skin, l, size)
    ensures SameRegion(left, LeftMask(skin, l, size)) && SameRegion(right, RightMask(skin, l, size))
  {
    var leftrightheight := LeftRightHeight(skin, size);
    var middlepixh := l.vsb - l.vst;
    if l.vstm == 0 {
      left, right := skin.left.mask, skin.right.mask;
    } else {
      left := RectRegion(Rect(0, 0, l.hsl, leftrightheight));
      right := RectRegion(Rect(0, 0, skin.right.width, leftrightheight));
      var leftpixRegion, rightpixRegion := TilePair(skin.left.mask, skin.right.mask, leftrightheight, middlepixh, 0, middlepixh);
      left := Intersect(left, leftpixRegion);
      right := Intersect(right, rightpixRegion);
    }
  }

  /** The centre before translation: its mask when stretched both ways, otherwise
      the span rectangle cut down to the centre tiled along the tiled axes. */
  method CenterRegion(skin: PreEditBarSkin, l: Layout, size: Size) returns (center: Region)
    requires TilingTerminates(skin, l, size)
    ensures SameRegion(center, CenterMask(skin, l, size))
  {
    var topbottomwidth, leftrightheight := TopBottomWidth(skin, size), LeftRightHeight(skin, size);
    var middlepixw, middlepixh := l.hsr - l.hsl, l.vsb - l.vst;
    center := RectRegion(Rect(0, 0, topbottomwidth, leftrightheight));
    if l.hstm == 0 {
      if l.vstm == 0 {
        center := skin.center.mask;
      } else {
        var centerpixRegion := TileLine(skin.center.mask, leftrightheight, middlepixh, 0, middlepixh);
        center := Intersect(center, centerpixRegion);
      }
    } else {
      if l.vstm == 0 {
        var centerpixRegion := TileLine(skin.center.mask, topbottomwidth, middlepixw, middlepixw, 0);
        center := Intersect(center, centerpixRegion);
      } else {
        var centerpixRegion := TileGrid(skin.center.mask, topbottomwidth, middlepixw, leftrightheight, middlepixh);
        center := Intersect(center, centerpixRegion);
      }
    }
  }

  /** The frame part of `drawPreEditBar`: corners, edges, centre. */
  method BackgroundPaint(skin: PreEditBarSkin, l: Layout, size: Size) returns (ops: seq<PaintOp>)
    ensures ops == BackgroundOps(skin, l, size)
  {
    var leftrightheight := size.h - skin.topleft.height - skin.bottomleft.height;
    var topbottomwidth := size.w - skin.topleft.width - skin.topright.width;
    var hsl, vst := l.hsl, l.vst;
    ops := [DrawPixmap(0, 0, skin.topleft),
            DrawPixmap(hsl + topbottomwidth, 0, skin.topright),
            DrawPixmap(0, vst + leftrightheight, skin.bottomleft),
            DrawPixmap(hsl + topbottomwidth, vst + leftrightheight, skin.bottomright)];
    if l.hstm == 0 {
      ops := ops + [DrawPixmap(hsl, 0, skin.top), DrawPixmap(hsl, vst + leftrightheight, skin.bottom)];
    } else {
      ops := ops + [DrawTiled(hsl, 0, topbottomwidth, vst, skin.top),
                    DrawTiled(hsl, vst + leftrightheight, topbottomwidth, skin.bottom.height, skin.bottom)];
    }
    if l.vstm == 0 {
      ops := ops + [DrawPixmap(0, vst, skin.left), DrawPixmap(hsl + topbottomwidth, vst, skin.right)];
    } else {
      ops := ops + [DrawTiled(0, vst, hsl, leftrightheight, skin.left),
                    DrawTiled(hsl + topbottomwidth, vst, skin.right.width, leftrightheight, skin.right)];
    }
    if l.hstm == 0 && l.vstm == 0 {
      ops := ops + [DrawPixmap(hsl, vst, skin.center)];
    } else {
      ops := ops + [DrawTiled(hsl, vst, topbottomwidth, leftrightheight, skin.center)];
    }
  }
}
