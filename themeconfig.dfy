/**
  Reading `skin.ini`: the line-by-line interpretation of the theme file that
  `ThemerSogou::loadTheme` performs, as a fold of one step per line over the
  parse state, and the normalisation of the cut lines that follows the loop.
  Archive entries are given already decoded: a name maps to the image its
  data decodes to.
 */
module ThemeConfig {
  import opened Options
  import opened Strings
  import opened Geometry
  import opened Overlays

  /** The section flags `general`, `display`, `scheme_h1`, `scheme_v1`, `statusbar`:
      a header line sets at most one of them, so they are one of six states. */
  datatype Section = NoSection | General | Display | SchemeH1 | SchemeV1 | StatusBar

  /** The section a header line selects; any other header leaves every flag false. */
  function SectionOf(header: string): (s: Section)
    ensures s == General <==> header == "[General]"
    ensures s == Display <==> header == "[Display]"
    ensures s == SchemeH1 <==> header == "[Scheme_H1]"
    ensures s == SchemeV1 <==> header == "[Scheme_V1]"
    ensures s == StatusBar <==> header == "[StatusBar]"
  {
    if header == "[General]" then General
    else if header == "[Display]" then Display
    else if header == "[Scheme_H1]" then SchemeH1
    else if header == "[Scheme_V1]" then SchemeV1
    else if header == "[StatusBar]" then StatusBar
    else NoSection
  }

  /** The cut lines and the text margins of one scheme (`h_hstm`, `h_hsl`, ... or `v_...`):
      `hstm`/`vstm` select scaling (0) or tiling of the middle strips, `hsl`/`hsr` and
      `vst`/`vsb` are the cut lines, `pt pb pl pr` the preedit margins and `zt zb zl zr`
      the candidate margins. */
  datatype Layout = Layout(
    hstm: int, hsl: int, hsr: int,
    vstm: int, vst: int, vsb: int,
    pt: int, pb: int, pl: int, pr: int,
    zt: int, zb: int, zl: int, zr: int)

  /** What a scheme section builds: the skin image (`h1skin` / `v1skin`), its layout and its overlays. */
  datatype SchemeState = SchemeState(skin: Pixmap, layout: Layout, overlays: OverlayTable)

  /** The `[Display]` settings read by the loop. */
  datatype DisplayConfig = DisplayConfig(
    fontPixelSize: int, fontCh: string, fontEn: string, pinyinColor: string, zhongwenColor: string)

  /** Everything the line loop reads and writes: the current section, the display
      settings, both schemes, the status-bar skin, the six icon slots `m_pwpos` and
      the slot counter `i`. */
  datatype ParseState = ParseState(
    section: Section,
    display: DisplayConfig,
    h: SchemeState, v: SchemeState,
    statusBarSkin: Pixmap,
    pwpos: seq<Point>, slot: int)

  /** The decoded images of the theme archive, by entry name. */
  type Images = map<string, Pixmap>

  ghost predicate ValidImages(images: Images) {
    forall n :: n in images ==> ValidPixmap(images[n])
  }

  ghost predicate ValidScheme(s: SchemeState) {
    ValidPixmap(s.skin) && ValidTable(s.overlays)
  }

  /** A parse state whose images are well formed, whose slot counter is in `0..6`
      and which has six icon slots. */
  ghost predicate ValidState(st: ParseState) {
    ValidScheme(st.h) && ValidScheme(st.v) && ValidPixmap(st.statusBarSkin)
    && |st.pwpos| == 6 && 0 <= st.slot <= 6
  }

  /** The state before the first line: no section, font size 12, empty font and colour
      names, null skins, empty overlay tables and slot counter 0.  The layouts, the
      status-bar skin and the icon slots are members of the engine and keep the values
      they had before the load. */
  function InitialState(h: Layout, v: Layout, statusBarSkin: Pixmap, pwpos: seq<Point>): ParseState {
    ParseState(NoSection, DisplayConfig(12, "", "", "", ""),
      SchemeState(Null, h, []), SchemeState(Null, v, []), statusBarSkin, pwpos, 0)
  }

  /** Field `i` of a comma list, trimmed and read as a number. */
  function Num(parts: seq<string>, i: nat): int {
    ToInt(Trim(Field(parts, i)))
  }

  // ---------------------------------------------------------------------------
  // One line of a scheme section.

  /** The `_align` fields stored into an overlay: margins from fields 0-3, the vertical
      mode as the sum of fields 4 and 5, the horizontal mode as the sum of fields 6
      and 7, the area from field 8 and the target from field 9. */
  function WithAlign(op: OverlayPixmap, numbers: seq<string>): (r: OverlayPixmap)
    ensures r.pixmap == op.pixmap
  {
    op.(mt := ToInt(Field(numbers, 0)), mb := ToInt(Field(numbers, 1)),
        ml := ToInt(Field(numbers, 2)), mr := ToInt(Field(numbers, 3)),
        alignVMode := ToInt(Field(numbers, 4)) + ToInt(Field(numbers, 5)),
        alignHMode := ToInt(Field(numbers, 6)) + ToInt(Field(numbers, 7)),
        alignArea := ToInt(Field(numbers, 8)),
        alignTarget := ToInt(Field(numbers, 9)))
  }

  /** `OverlayPixmap& op = overlays[name]; op.mt = ...`: a missing name gets a default
      entry, which then takes the `_align` numbers. */
  function SetAlign(t: OverlayTable, name: string, numbers: seq<string>): (r: OverlayTable)
    ensures Contains(r, name)
  {
    var u := Touch(t, name);
    var r := Replace(u, name, WithAlign(Lookup(u, name).value, numbers));
    assert r[IndexOf(u, name)].name == name;
    r
  }

  /** `overlays[key].pixmap.loadFromData(...)` for a name already in the table. */
  function SetPixmap(t: OverlayTable, name: string, p: Pixmap): (r: OverlayTable)
    requires Contains(t, name)
  {
    var i := IndexOf(t, name);
    t[i := NamedOverlay(name, t[i].overlay.(pixmap := p))]
  }

  /** One `key=value` line of `[Scheme_H1]` (`forceScale`) or `[Scheme_V1]`.  The keys are
      tried in the order of the source: `pic`, `layout_horizontal`, `layout_vertical`,
      `pinyin_marge`, `zhongwen_marge`, a `_display` suffix, an `_align` suffix, and
      finally the name of a known overlay.  In the horizontal scheme the vertical
      layout is read and then overridden with scale mode and cuts 1, 1. */
  function SchemeLine(s: SchemeState, key: string, value: string, images: Images, forceScale: bool): SchemeState {
    var f := Split(value, ',');
    if key == "pic" then
      if value in images then s.(skin := images[value]) else s
    else if key == "layout_horizontal" then
      s.(layout := s.layout.(hstm := Num(f, 0), hsl := Num(f, 1), hsr := Num(f, 2)))
    else if key == "layout_vertical" then
      if forceScale then s.(layout := s.layout.(vstm := 0, vst := 1, vsb := 1))
      else s.(layout := s.layout.(vstm := Num(f, 0), vst := Num(f, 1), vsb := Num(f, 2)))
    else if key == "pinyin_marge" then
      s.(layout := s.layout.(pt := Num(f, 0), pb := Num(f, 1), pl := Num(f, 2), pr := Num(f, 3)))
    else if key == "zhongwen_marge" then
      s.(layout := s.layout.(zt := Num(f, 0), zb := Num(f, 1), zl := Num(f, 2), zr := Num(f, 3)))
    else if EndsWith(key, "_display") then
      s.(overlays := Insert(s.overlays, Left(key, |key| - 8), DefaultOverlay))
    else if EndsWith(key, "_align") then
      s.(overlays := SetAlign(s.overlays, Left(key, |key| - 6), f))
    else if Contains(s.overlays, key) then
      if value in images then s.(overlays := SetPixmap(s.overlays, key, images[value])) else s
    else s
  }

  // ---------------------------------------------------------------------------
  // One line of the display and status-bar sections.

  function DisplayLine(d: DisplayConfig, key: string, value: string): DisplayConfig {
    if key == "font_size" then d.(fontPixelSize := ToInt(Trim(value)))
    else if key == "font_ch" then d.(fontCh := value)
    else if key == "font_en" then d.(fontEn := value)
    else if key == "pinyin_color" then d.(pinyinColor := value)
    else if key == "zhongwen_color" then d.(zhongwenColor := value)
    else d
  }

  /** `if (x != 0 && y != 0 && i < 6) m_pwpos[i++] = QPoint(x, y)`. */
  function StorePos(st: ParseState, x: int, y: int): (r: ParseState)
    requires |st.pwpos| == 6 && 0 <= st.slot
    ensures |r.pwpos| == 6 && st.slot <= r.slot && (st.slot <= 6 ==> r.slot <= 6)
  {
    if x != 0 && y != 0 && st.slot < 6 then st.(pwpos := st.pwpos[st.slot := Point(x, y)], slot := st.slot + 1)
    else st
  }

  function StatusBarLine(st: ParseState, key: string, value: string, images: Images): (r: ParseState)
    requires |st.pwpos| == 6 && 0 <= st.slot
    ensures |r.pwpos| == 6 && st.slot <= r.slot && (st.slot <= 6 ==> r.slot <= 6)
  {
    if key == "pic" then
      if value in images then st.(statusBarSkin := images[value]) else st
    else if EndsWith(key, "_pos") then
      var f := Split(value, ',');
      StorePos(st, Num(f, 0), Num(f, 1))
    else st
  }

  // ---------------------------------------------------------------------------
  // The line loop.

  /** One pass of the `do ... while` loop: an empty line is skipped, a header selects
      the section, any other line is split at `=` into key (field 0) and value
      (field 1, empty when the line has no `=`) and handled by the current section. */
  function ApplyLine(st: ParseState, line: string, images: Images): (r: ParseState)
    requires |st.pwpos| == 6 && 0 <= st.slot
    ensures |r.pwpos| == 6 && st.slot <= r.slot && (st.slot <= 6 ==> r.slot <= 6)
  {
    if |line| == 0 then st
    else if line[0] == '[' then st.(section := SectionOf(line))
    else
      var parts := Split(line, '=');
      var key, value := parts[0], Field(parts, 1);
      match st.section
      case NoSection => st
      case General => st
      case Display => st.(display := DisplayLine(st.display, key, value))
      case SchemeH1 => st.(h := SchemeLine(st.h, key, value, images, true))
      case SchemeV1 => st.(v := SchemeLine(st.v, key, value, images, false))
      case StatusBar => StatusBarLine(st, key, value, images)
  }

  /** The state after the loop has read `lines` in order. */
  function ParseLines(st: ParseState, lines: seq<string>, images: Images): (r: ParseState)
    requires |st.pwpos| == 6 && 0 <= st.slot
    ensures |r.pwpos| == 6 && st.slot <= r.slot && (st.slot <= 6 ==> r.slot <= 6)
    decreases |lines|
  {
    if |lines| == 0 then st
    else
      ApplyLine(ParseLines(st, lines[..|lines| - 1], images), lines[|lines| - 1], images)
  }

  /** Reading lines one after another: the state after `a + b` is the state after
      `b` read from the state after `a`. */
  lemma {:induction false} ParseLinesAppend(st: ParseState, a: seq<string>, b: seq<string>, images: Images)
    requires |st.pwpos| == 6 && 0 <= st.slot
    ensures ParseLines(st, a + b, images) == ParseLines(ParseLines(st, a, images), b, images)
    decreases |b|
  {
    if |b| == 0 {
      assert a + b == a;
    } else {
      var n := |b| - 1;
      assert (a + b)[..|a + b| - 1] == a + b[..n];
      assert (a + b)[|a + b| - 1] == b[n];
      ParseLinesAppend(st, a, b[..n], images);
    }
  }

  // ---------------------------------------------------------------------------
  // Sections.

  /** A header line only selects the section; a non-header line outside the display,
      scheme and status-bar sections (including `[General]`) changes nothing. */
  lemma HeaderAndIgnoredLines(st: ParseState, line: string, images: Images)
    requires |st.pwpos| == 6 && 0 <= st.slot
    ensures |line| > 0 && line[0] == '[' ==> ApplyLine(st, line, images) == st.(section := SectionOf(line))
    ensures (|line| == 0 || line[0] != '[') && (st.section == NoSection || st.section == General) ==>
      ApplyLine(st, line, images) == st
  {
  }

  // ---------------------------------------------------------------------------
  // The overlay table under `_display`, `_align` and image lines.

  /** `SetAlign` stores the `_align` numbers under the name, on top of the entry's
      current image (a null image for a new name), leaves every other name alone,
      adds an entry exactly when the name was new and keeps names distinct. */
  lemma SetAlignLookup(t: OverlayTable, name: string, numbers: seq<string>, other: string)
    requires UniqueNames(t)
    ensures UniqueNames(SetAlign(t, name, numbers))
    ensures Lookup(SetAlign(t, name, numbers), name) ==
      Some(WithAlign(if Contains(t, name) then Lookup(t, name).value else DefaultOverlay, numbers))
    ensures other != name ==> Lookup(SetAlign(t, name, numbers), other) == Lookup(t, other)
    ensures |SetAlign(t, name, numbers)| == if Contains(t, name) then |t| else |t| + 1
  {
    var u := Touch(t, name);
    TouchReplaceLookup(t, name, WithAlign(Lookup(u, name).value, numbers), other);
  }

  /** `SetPixmap` replaces the image of the named entry only. */
  lemma SetPixmapLookup(t: OverlayTable, name: string, p: Pixmap, other: string)
    requires UniqueNames(t) && Contains(t, name)
    ensures UniqueNames(SetPixmap(t, name, p))
    ensures Lookup(SetPixmap(t, name, p), name) == Some(Lookup(t, name).value.(pixmap := p))
    ensures other != name ==> Lookup(SetPixmap(t, name, p), other) == Lookup(t, other)
    ensures |SetPixmap(t, name, p)| == |t|
  {
    var r := SetPixmap(t, name, p);
    assert forall k :: 0 <= k < |t| ==> r[k].name == t[k].name;
    UniqueIndex(r, name, IndexOf(r, name), IndexOf(t, name));
    if other != name && IndexOf(t, other) >= 0 {
      UniqueIndex(r, other, IndexOf(r, other), IndexOf(t, other));
    }
  }

  /** `_display` keeps the table's images well formed and its names distinct. */
  lemma InsertValid(t: OverlayTable, name: string)
    requires ValidTable(t)
    ensures ValidTable(Insert(t, name, DefaultOverlay))
  {
    InsertLookup(t, name, DefaultOverlay, name);
    var r := Insert(t, name, DefaultOverlay);
    forall k | 0 <= k < |r| ensures ValidOverlay(r[k].overlay) {
      if k < |t| && r[k] != t[k] {
        assert r[k].overlay == DefaultOverlay;
      }
    }
  }

  /** `_align` keeps the table's images well formed and its names distinct. */
  lemma SetAlignValid(t: OverlayTable, name: string, numbers: seq<string>)
    requires ValidTable(t)
    ensures ValidTable(SetAlign(t, name, numbers))
  {
    TouchKeeps(t, name);
    var u := Touch(t, name);
    assert ValidTable(u) by {
      forall k | 0 <= k < |u| ensures ValidOverlay(u[k].overlay) {
        if k >= |t| {
          assert u[k].overlay == DefaultOverlay;
        }
      }
    }
    var i := IndexOf(u, name);
    var r := u[i := NamedOverlay(name, WithAlign(u[i].overlay, numbers))];
    assert r == SetAlign(t, name, numbers);
    assert u[i].name == name;
    forall k | 0 <= k < |r|
      ensures r[k].name == u[k].name && r[k].overlay.pixmap == u[k].overlay.pixmap
    {
      if k != i {
        assert r[k] == u[k];
      }
    }
    SameShapeValid(u, r);
  }

  /** An image line keeps the table's images well formed and its names distinct. */
  lemma SetPixmapValid(t: OverlayTable, name: string, p: Pixmap)
    requires ValidTable(t) && ValidPixmap(p) && Contains(t, name)
    ensures ValidTable(SetPixmap(t, name, p))
  {
    SetPixmapLookup(t, name, p, name);
    var r := SetPixmap(t, name, p);
    forall k | 0 <= k < |r| ensures ValidOverlay(r[k].overlay) {
      if k != IndexOf(t, name) {
        assert r[k] == t[k];
      }
    }
  }

  /** A scheme line keeps the scheme's images well formed and its names distinct. */
  lemma SchemeLineValid(s: SchemeState, key: string, value: string, images: Images, forceScale: bool)
    requires ValidScheme(s) && ValidImages(images)
    ensures ValidScheme(SchemeLine(s, key, value, images, forceScale))
  {
    var r := SchemeLine(s, key, value, images, forceScale);
    if key == "pic" {
      assert r.skin == s.skin || r.skin == images[value];
      assert r.overlays == s.overlays;
    } else if key in ["layout_horizontal", "layout_vertical", "pinyin_marge", "zhongwen_marge"] {
      assert r.skin == s.skin && r.overlays == s.overlays;
    } else if EndsWith(key, "_display") {
      InsertValid(s.overlays, Left(key, |key| - 8));
      assert r == s.(overlays := Insert(s.overlays, Left(key, |key| - 8), DefaultOverlay));
    } else if EndsWith(key, "_align") {
      SetAlignValid(s.overlays, Left(key, |key| - 6), Split(value, ','));
      assert r == s.(overlays := SetAlign(s.overlays, Left(key, |key| - 6), Split(value, ',')));
    } else if Contains(s.overlays, key) && value in images {
      SetPixmapValid(s.overlays, key, images[value]);
      assert r == s.(overlays := SetPixmap(s.overlays, key, images[value]));
    } else {
      assert r == s;
    }
  }

  /** Reading a line keeps the parse state well formed when the archive images are. */
  lemma ApplyLineValid(st: ParseState, line: string, images: Images)
    requires ValidState(st) && ValidImages(images)
    ensures ValidState(ApplyLine(st, line, images))
  {
    if |line| > 0 && line[0] != '[' {
      var parts := Split(line, '=');
      var key, value := parts[0], Field(parts, 1);
      var r := ApplyLine(st, line, images);
      match st.section
      case SchemeH1 =>
        SchemeLineValid(st.h, key, value, images, true);
        assert r == st.(h := SchemeLine(st.h, key, value, images, true));
      case SchemeV1 =>
        SchemeLineValid(st.v, key, value, images, false);
        assert r == st.(v := SchemeLine(st.v, key, value, images, false));
      case StatusBar =>
        assert r == StatusBarLine(st, key, value, images);
      case _ =>
        assert r.h == st.h && r.v == st.v && r.statusBarSkin == st.statusBarSkin;
    }
  }

  /** A line stores at most one icon position, in the next free slot, and leaves
      the other slots as they were. */
  lemma ApplyLineSlot(st: ParseState, line: string, images: Images)
    requires |st.pwpos| == 6 && 0 <= st.slot
    ensures var r := ApplyLine(st, line, images);
      || (r.slot == st.slot && r.pwpos == st.pwpos)
      || (r.slot == st.slot + 1 && st.slot < 6 && r.pwpos == st.pwpos[st.slot := r.pwpos[st.slot]])
  {
  }

  /** Reading any lines keeps the parse state well formed. */
  lemma {:induction false} ParseLinesValid(st: ParseState, lines: seq<string>, images: Images)
    requires ValidState(st) && ValidImages(images)
    ensures ValidState(ParseLines(st, lines, images))
    decreases |lines|
  {
    if |lines| > 0 {
      ParseLinesValid(st, lines[..|lines| - 1], images);
      ApplyLineValid(ParseLines(st, lines[..|lines| - 1], images), lines[|lines| - 1], images);
    }
  }

  // ---------------------------------------------------------------------------
  // The text format of the values.

  predicate InIntRange(ns: seq<int>) {
    forall i :: 0 <= i < |ns| ==> IntMin <= ns[i] <= IntMax
  }

  /** Numbers rendered in decimal. */
  function Numbers(ns: seq<int>): (parts: seq<string>)
    ensures |parts| == |ns|
    ensures forall i :: 0 <= i < |ns| ==> parts[i] == IntToString(ns[i])
  {
    seq(|ns|, i requires 0 <= i < |ns| => IntToString(ns[i]))
  }

  /** A comma-separated list of numbers, as the layout, margin, `_align` and `_pos` values are written. */
  function NumberList(ns: seq<int>): string {
    Join(Numbers(ns), ',')
  }

  /** A key and a value written as an ini line. */
  function KeyValue(key: string, value: string): string {
    key + "=" + value
  }

  /** A list of 32-bit numbers splits back into the numbers, trimmed or not. */
  lemma ReadNumberList(ns: seq<int>)
    requires |ns| >= 1 && InIntRange(ns)
    ensures Split(NumberList(ns), ',') == Numbers(ns)
    ensures forall i :: 0 <= i < |ns| ==> Num(Numbers(ns), i) == ns[i]
    ensures forall i :: 0 <= i < |ns| ==> Num(Split(NumberList(ns), ','), i) == ns[i]
    ensures forall i :: 0 <= i < |ns| ==> ToInt(Field(Numbers(ns), i)) == ns[i]
  {
    var parts := Numbers(ns);
    forall i | 0 <= i < |parts| ensures ',' !in parts[i] && Trim(parts[i]) == parts[i] && ToInt(parts[i]) == ns[i] {
      IntToStringPlain(ns[i]);
      ToIntIntToString(ns[i]);
    }
    SplitJoin(parts, ',');
  }

  /** A line `key=value` whose key and value hold no `=` splits into exactly the two. */
  lemma ReadKeyValue(key: string, value: string)
    requires '=' !in key && '=' !in value
    ensures Split(KeyValue(key, value), '=') == [key, value]
  {
    SplitFirst(key, '=', value);
    SplitNoSep(value, '=');
    assert KeyValue(key, value) == key + ['='] + value;
  }

  /** A rendered number list holds no `=`. */
  lemma NumberListPlain(ns: seq<int>)
    ensures '=' !in NumberList(ns)
  {
    var parts := Numbers(ns);
    forall i | 0 <= i < |parts| ensures '=' !in parts[i] {
      IntToStringPlain(ns[i]);
    }
    NoSepInJoin(parts, ',', '=');
  }

  /** Joining parts free of a character with another separator keeps the character out. */
  lemma {:induction false} NoSepInJoin(parts: seq<string>, sep: char, c: char)
    requires sep != c
    requires forall i :: 0 <= i < |parts| ==> c !in parts[i]
    ensures c !in Join(parts, sep)
    decreases |parts|
  {
    if |parts| > 1 {
      NoSepInJoin(parts[1..], sep, c);
    }
  }

  // ---------------------------------------------------------------------------
  // What the lines of a scheme section store.

  /** A `layout_horizontal` line stores its three numbers as `hstm`, `hsl`, `hsr`, in
      either scheme, and changes nothing else. */
  lemma LayoutHorizontalRead(s: SchemeState, a: int, b: int, c: int, images: Images, forceScale: bool)
    requires InIntRange([a, b, c])
    ensures SchemeLine(s, "layout_horizontal", NumberList([a, b, c]), images, forceScale)
      == s.(layout := s.layout.(hstm := a, hsl := b, hsr := c))
  {
    ReadNumberList([a, b, c]);
  }

  /** A `layout_vertical` line of the vertical scheme stores its three numbers as `vstm`,
      `vst`, `vsb` and changes nothing else. */
  lemma LayoutVerticalRead(s: SchemeState, a: int, b: int, c: int, images: Images)
    requires InIntRange([a, b, c])
    ensures SchemeLine(s, "layout_vertical", NumberList([a, b, c]), images, false)
      == s.(layout := s.layout.(vstm := a, vst := b, vsb := c))
  {
    ReadNumberList([a, b, c]);
  }

  /** In the horizontal scheme a `layout_vertical` line, whatever its value, sets scale mode
      with both vertical cuts at 1; no other key of a scheme section touches `vstm`, `vst`
      or `vsb`. */
  lemma HorizontalSchemeVerticalOverride(s: SchemeState, key: string, value: string, images: Images)
    ensures key == "layout_vertical" ==>
      SchemeLine(s, key, value, images, true) == s.(layout := s.layout.(vstm := 0, vst := 1, vsb := 1))
    ensures key != "layout_vertical" ==>
      var l := SchemeLine(s, key, value, images, true).layout;
      l.vstm == s.layout.vstm && l.vst == s.layout.vst && l.vsb == s.layout.vsb
  {
  }

  /** The margin lines store their four numbers top, bottom, left, right. */
  lemma MarginsRead(s: SchemeState, t: int, b: int, l: int, r: int, images: Images, forceScale: bool)
    requires InIntRange([t, b, l, r])
    ensures SchemeLine(s, "pinyin_marge", NumberList([t, b, l, r]), images, forceScale)
      == s.(layout := s.layout.(pt := t, pb := b, pl := l, pr := r))
    ensures SchemeLine(s, "zhongwen_marge", NumberList([t, b, l, r]), images, forceScale)
      == s.(layout := s.layout.(zt := t, zb := b, zl := l, zr := r))
  {
    ReadNumberList([t, b, l, r]);
    MarginValues(s, NumberList([t, b, l, r]), [t, b, l, r], images, forceScale);
  }

  /** The margin lines store the four numbers their fields read as. */
  lemma MarginValues(s: SchemeState, value: string, vs: seq<int>, images: Images, forceScale: bool)
    requires |vs| == 4 && forall k :: 0 <= k < 4 ==> Num(Split(value, ','), k) == vs[k]
    ensures SchemeLine(s, "pinyin_marge", value, images, forceScale)
      == s.(layout := s.layout.(pt := vs[0], pb := vs[1], pl := vs[2], pr := vs[3]))
    ensures SchemeLine(s, "zhongwen_marge", value, images, forceScale)
      == s.(layout := s.layout.(zt := vs[0], zb := vs[1], zl := vs[2], zr := vs[3]))
  {
    var f := Split(value, ',');
    assert Num(f, 0) == vs[0] && Num(f, 1) == vs[1] && Num(f, 2) == vs[2] && Num(f, 3) == vs[3];
  }

  /** `WithAlign` stores the ten values its fields read as. */
  lemma WithAlignValues(op: OverlayPixmap, numbers: seq<string>, vs: seq<int>)
    requires |vs| == 10 && forall k :: 0 <= k < 10 ==> ToInt(Field(numbers, k)) == vs[k]
    ensures WithAlign(op, numbers)
      == OverlayPixmap(op.pixmap, vs[0], vs[1], vs[2], vs[3], vs[4] + vs[5], vs[6] + vs[7], vs[8], vs[9])
  {
    var r := WithAlign(op, numbers);
    assert r.mt == vs[0] && r.mb == vs[1] && r.ml == vs[2] && r.mr == vs[3];
    assert r.alignVMode == vs[4] + vs[5] && r.alignHMode == vs[6] + vs[7];
    assert r.alignArea == vs[8] && r.alignTarget == vs[9];
  }

  /** Ten rendered numbers stored by `WithAlign`. */
  lemma WithAlignNumbers(op: OverlayPixmap, ns: seq<int>)
    requires |ns| == 10 && InIntRange(ns)
    ensures WithAlign(op, Numbers(ns))
      == OverlayPixmap(op.pixmap, ns[0], ns[1], ns[2], ns[3], ns[4] + ns[5], ns[6] + ns[7], ns[8], ns[9])
  {
    forall k | 0 <= k < 10 ensures ToInt(Field(Numbers(ns), k)) == ns[k] {
      ToIntIntToString(ns[k]);
    }
    WithAlignValues(op, Numbers(ns), ns);
  }

  /** An `_align` line with ten numbers gives the named overlay margins `n0..n3`, vertical
      mode `n4 + n5`, horizontal mode `n6 + n7`, area `n8` and target `n9`, keeping the
      image it had (none for a name not seen before). */
  lemma AlignRead(t: OverlayTable, name: string, ns: seq<int>)
    requires UniqueNames(t)
    requires |ns| == 10 && InIntRange(ns)
    ensures Lookup(SetAlign(t, name, Split(NumberList(ns), ',')), name)
      == Some(OverlayPixmap(if Contains(t, name) then Lookup(t, name).value.pixmap else Null,
                            ns[0], ns[1], ns[2], ns[3], ns[4] + ns[5], ns[6] + ns[7], ns[8], ns[9]))
  {
    ReadNumberList(ns);
    SetAlignLookup(t, name, Numbers(ns), name);
    var op := if Contains(t, name) then Lookup(t, name).value else DefaultOverlay;
    WithAlignNumbers(op, ns);
  }

  /** A `_display` line names an overlay: it gets a fresh default entry, replacing any
      entry of that name, and the `_display` suffix is dropped from the name. */
  lemma DisplayKeyRead(s: SchemeState, name: string, value: string, images: Images, forceScale: bool)
    requires UniqueNames(s.overlays)
    requires name + "_display" !in {"pic", "layout_horizontal", "layout_vertical", "pinyin_marge", "zhongwen_marge"}
    ensures var r := SchemeLine(s, name + "_display", value, images, forceScale);
      r.skin == s.skin && r.layout == s.layout && Lookup(r.overlays, name) == Some(DefaultOverlay)
      && UniqueNames(r.overlays)
  {
    var key := name + "_display";
    assert EndsWith(key, "_display") by { assert key[|key| - 8..] == "_display"; }
    assert Left(key, |key| - 8) == name;
    InsertLookup(s.overlays, name, DefaultOverlay, name);
  }

  // ---------------------------------------------------------------------------
  // The icon slots of the status bar.

  /** The points of a run of `_pos` lines that are stored: those with both coordinates non-zero. */
  function Accepted(ps: seq<Point>): (r: seq<Point>)
    ensures |r| <= |ps|
    ensures forall j :: 0 <= j < |r| ==> r[j].x != 0 && r[j].y != 0
    decreases |ps|
  {
    if |ps| == 0 then []
    else
      var p := ps[|ps| - 1];
      Accepted(ps[..|ps| - 1]) + (if p.x != 0 && p.y != 0 then [p] else [])
  }

  /** The state after `StorePos` of each point in turn. */
  function StoreAll(st: ParseState, ps: seq<Point>): (r: ParseState)
    requires |st.pwpos| == 6 && 0 <= st.slot <= 6
    ensures |r.pwpos| == 6 && st.slot <= r.slot <= 6
    decreases |ps|
  {
    if |ps| == 0 then st
    else
      var p := ps[|ps| - 1];
      StorePos(StoreAll(st, ps[..|ps| - 1]), p.x, p.y)
  }

  /** The number of slots a run of points fills. */
  function Filled(st: ParseState, ps: seq<Point>): int {
    Min(6 - st.slot, |Accepted(ps)|)
  }

  /** Storing a run of points fills the free slots with the accepted points in order,
      up to six slots in all: the counter advances by the number filled, the filled
      slots hold the accepted points in file order, every other slot and everything
      else keeps its value. */
  lemma {:induction false} StoreAllSlots(st: ParseState, ps: seq<Point>)
    requires |st.pwpos| == 6 && 0 <= st.slot <= 6
    ensures StoreAll(st, ps).slot == st.slot + Filled(st, ps)
    ensures forall j :: 0 <= j < Filled(st, ps) ==> StoreAll(st, ps).pwpos[st.slot + j] == Accepted(ps)[j]
    ensures forall j :: 0 <= j < 6 && !(st.slot <= j < st.slot + Filled(st, ps)) ==>
      StoreAll(st, ps).pwpos[j] == st.pwpos[j]
    ensures StoreAll(st, ps) == st.(pwpos := StoreAll(st, ps).pwpos, slot := StoreAll(st, ps).slot)
    decreases |ps|
  {
    if |ps| > 0 {
      var init := ps[..|ps| - 1];
      var p := ps[|ps| - 1];
      StoreAllSlots(st, init);
      var mid := StoreAll(st, init);
      assert Accepted(ps) == Accepted(init) + (if p.x != 0 && p.y != 0 then [p] else []);
      if p.x != 0 && p.y != 0 && mid.slot < 6 {
        assert Accepted(ps)[|Accepted(init)|] == p;
        assert Filled(st, ps) == Filled(st, init) + 1;
      }
    }
  }

  /** The lines `name_pos=x,y` of a run of points. */
  function PosLines(names: seq<string>, ps: seq<Point>): (lines: seq<string>)
    requires |names| == |ps|
    ensures |lines| == |ps|
  {
    seq(|ps|, j requires 0 <= j < |ps| => KeyValue(names[j] + "_pos", NumberList([ps[j].x, ps[j].y])))
  }

  /** Names usable as overlay or icon names in a line: no `=`, and not starting with `[`. */
  predicate PlainName(name: string) {
    '=' !in name && (|name| > 0 ==> name[0] != '[')
  }

  /** In the status-bar section a line `name_pos=x,y` tries to store `(x, y)` in the next slot. */
  lemma PosLineRead(st: ParseState, name: string, x: int, y: int, images: Images)
    requires |st.pwpos| == 6 && 0 <= st.slot && st.section == StatusBar
    requires PlainName(name) && InIntRange([x, y])
    ensures ApplyLine(st, KeyValue(name + "_pos", NumberList([x, y])), images) == StorePos(st, x, y)
  {
    var key := name + "_pos";
    var line := KeyValue(key, NumberList([x, y]));
    assert '=' !in key;
    NumberListPlain([x, y]);
    ReadKeyValue(key, NumberList([x, y]));
    ReadNumberList([x, y]);
    assert EndsWith(key, "_pos") by { assert key[|key| - 4..] == "_pos"; }
    assert key != "pic" by { assert |key| >= 4; }
    assert line[0] != '[' by {
      if |name| > 0 { assert line[0] == name[0]; } else { assert line[0] == '_'; }
    }
  }

  /** Reading a run of `_pos` lines in the status-bar section stores their points as `StoreAll` does. */
  lemma {:induction false} PosLinesRead(st: ParseState, names: seq<string>, ps: seq<Point>, images: Images)
    requires |st.pwpos| == 6 && 0 <= st.slot <= 6 && st.section == StatusBar
    requires |names| == |ps|
    requires forall j :: 0 <= j < |ps| ==> PlainName(names[j]) && InIntRange([ps[j].x, ps[j].y])
    ensures ParseLines(st, PosLines(names, ps), images) == StoreAll(st, ps)
    decreases |ps|
  {
    if |ps| > 0 {
      var n := |ps| - 1;
      assert PosLines(names, ps)[..n] == PosLines(names[..n], ps[..n]);
      PosLinesRead(st, names[..n], ps[..n], images);
      StoreAllSlots(st, ps[..n]);
      PosLineRead(StoreAll(st, ps[..n]), names[n], ps[n].x, ps[n].y, images);
    }
  }

  // ---------------------------------------------------------------------------
  // After the loop.

  /** `hsr = skin.width() - hsr; vsb = skin.height() - vsb`, then each pair of cuts is
      swapped if out of order: the far cuts count from the right and bottom edges in
      the file, and the result is ordered and holds the same two values per axis. */
  function NormalizeCuts(l: Layout, skin: Pixmap): (r: Layout)
    ensures r.hsl <= r.hsr && r.vst <= r.vsb
    ensures (r.hsl, r.hsr) == (l.hsl, skin.width - l.hsr) || (r.hsr, r.hsl) == (l.hsl, skin.width - l.hsr)
    ensures (r.vst, r.vsb) == (l.vst, skin.height - l.vsb) || (r.vsb, r.vst) == (l.vst, skin.height - l.vsb)
    ensures r == l.(hsl := r.hsl, hsr := r.hsr, vst := r.vst, vsb := r.vsb)
  {
    var hsr := skin.width - l.hsr;
    var vsb := skin.height - l.vsb;
    var r := l.(hsr := hsr, vsb := vsb);
    var r := if r.hsl > r.hsr then r.(hsl := r.hsr, hsr := r.hsl) else r;
    if r.vst > r.vsb then r.(vst := r.vsb, vsb := r.vst) else r
  }

  /** Cuts written inside the image (near cuts from the left and top, far cuts from the
      right and bottom) end inside it and ordered. */
  lemma NormalizedInside(l: Layout, skin: Pixmap)
    requires 0 <= l.hsl <= skin.width && 0 <= l.hsr <= skin.width
    requires 0 <= l.vst <= skin.height && 0 <= l.vsb <= skin.height
    ensures 0 <= NormalizeCuts(l, skin).hsl <= NormalizeCuts(l, skin).hsr <= skin.width
    ensures 0 <= NormalizeCuts(l, skin).vst <= NormalizeCuts(l, skin).vsb <= skin.height
  {
  }

  /** The normalisation only orders the cuts: a cut written beyond the image stays beyond it. */
  lemma CutsMayLeaveImage()
    ensures NormalizeCuts(Layout(0, 150, 0, 0, 10, 0, 0, 0, 0, 0, 0, 0, 0, 0), Pixmap(100, 40, EmptyRegion)).hsr == 150
  {
  }
}
