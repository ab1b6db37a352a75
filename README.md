# KIMToy Sogou theme engine and status bar, in Dafny

This project models the appearance core of KIMToy, an input-method panel for
KDE. The core has two parts.

- **The Sogou theme engine (`ThemerSogou`).** It reads a zipped Sogou skin.
  The line loop over `skin.ini` fills in two schemes: the horizontal preedit
  bar (`Scheme_H1`) and the vertical one (`Scheme_V1`). Each scheme holds a
  layout (the cut positions `hsl hsr vst vsb`, the stretch/tile modes
  `hstm vstm`, the text margins), a table of named overlay pixmaps and a
  nine-patch skin. The loop also reads the display fonts and colours, the
  status-bar skin and up to six status-bar icon positions.

  From these members the engine does four things:
  - it computes size hints;
  - it lays the status-bar icons out at their slots;
  - it fits the nine-patch skin to a new bar size, stretching or keeping each
    piece;
  - it builds the window shape (a mask). The mask is the nine pieces, tiled
    where the scheme tiles, moved to their places and united, with every
    overlay's mask at its anchor offset.

  It also paints the preedit bar: frame, overlays, preedit line and lookup
  table.
- **The status bar (`StatusBar`).** It keeps a registry of the properties the
  input method publishes. Each property arrives as
  `objectPath:name:iconName:description` and is stored as an object path
  beside a layout item. The bar also moves itself with a right-button drag.

## How the model is built

- **Modules.** The model follows the source's structure with one module per
  concern:
  - `Geometry`: rectangles, regions, pixmaps, `QPixmap::copy` and `scaled`;
  - `Strings`: the `QString` operations the loader uses;
  - `NinePatch`: `PreEditBarSkin`;
  - `Overlays`: the overlay table and its insets;
  - `ThemeConfig`: the `skin.ini` line loop;
  - `Tiling`: the region tiling loops;
  - `Frame`: resize and mask as functions;
  - `PreEditLayout`: size hint and painting;
  - `Themer`: the `ThemerSogou` class;
  - `StatusBar`: the registry and the drag.
- **Values and specifications.** Pure computations are functions.
- **Classes.** The objects whose fields the source updates are classes:
  - `Themer.ThemerSogou`, whose state is the two schemes, the status-bar skin,
    the text style, the masks and the icon slots. The slots are an
    `array<Point>` of length 6, like the C++ array `m_pwpos[6]`.
  - `StatusBar.Bar` and `StatusBar.StatusBarLayout`.
- **Loops.** Each loop of the source is a `while` loop in a method. Each such
  method is proved equal to a specification function. Every property is then
  proved about that function.
- **Regions.** A region is a membership predicate `(int, int) -> bool` (a
  `QRegion` as the set of its pixels). A pixmap is its size together with its
  opacity mask (`QPixmap::mask()`).
- **Painting.** It is a list of paint requests. The pixels a request covers
  (`Coverage`) are what makes painting comparable with the mask.

## Model

| member | source | states |
|---|---|---|
| Geometry.Intersected | themer_sogou.cpp:115-123 | A pixel lies in the intersection of two rectangles exactly when it lies in both. |
| Geometry.Copy | themer_sogou.cpp:115-123 | `QPixmap::copy`: a null source copies to null; an empty request copies the whole image at its size; a request disjoint from the image gives null; otherwise the copy has the size of the common part and is opaque exactly where the source is. |
| Geometry.CopyRect | themer_sogou.cpp:115-123 | Copying by rectangle always gives a well-formed pixmap. |
| Geometry.CopyIsCrop | themer_sogou.cpp:115-123 | A rectangle inside the image is copied by cropping the image to it. |
| Geometry.CopyInside | themer_sogou.cpp:115-123 | A copy of a rectangle inside the image has exactly the rectangle's size, and its pixel (x, y) is opaque exactly when source pixel (x + c.x, y + c.y) is. |
| Geometry.Scaled | themer_sogou.cpp:498-499 | `QPixmap::scaled`: null or empty size gives null; otherwise the result has the requested size; a pixmap already of that size is returned unchanged. |
| Geometry.ScaledIdempotent | themer_sogou.cpp:826-828 | Scaling twice to the same size is scaling once. |
| Strings.Trim | themer_sogou.cpp:213 | `trimmed()` never lengthens, leaves no white space at either end, and keeps a non-empty result whenever the input had a non-space character. White space is `QChar::isSpace` of Qt 4: U+0009..U+000D and the Unicode space, line and paragraph separators, the ideographic space U+3000 among them. |
| Strings.TrimIsInfix | themer_sogou.cpp:213 | The trimmed string is a contiguous part `s[i..j]` of the input, with only white space before `i` and after `j`. |
| Strings.TrimUnchanged | themer_sogou.cpp:213 | A string without white space at its ends is its own trim. |
| Strings.Left | themer_sogou.cpp:259 | `left(n)` is a prefix of the string, of length n when 0 <= n < length. |
| Strings.Split | themer_sogou.cpp:205-206 | `split(sep)` always has at least one part and no part holds the separator. |
| Strings.JoinSplit | themer_sogou.cpp:205-206 | Joining the parts of a split gives back the string. |
| Strings.SplitNoSep | themer_sogou.cpp:205-206 | A line with no separator splits into itself alone. |
| Strings.SplitFirst | themer_sogou.cpp:205-206 | A separator-free key followed by the separator is split off as the first field. |
| Strings.SplitJoin | statusbar.cpp:66-70 | Splitting a join of separator-free parts gives back the parts. |
| Strings.FieldOfJoin | themer_sogou.cpp:205-206 | Reading field i of a line written by joining separator-free parts gives part i back, and the empty string past the last part. |
| Strings.DigitChar | themer_sogou.cpp:231-233 | The digit character of d < 10 is a digit whose value is d. |
| Strings.ToInt | themer_sogou.cpp:231-233 | `toInt` always returns a 32-bit integer. |
| Strings.NatToString | themer_sogou.cpp:231-233 | A rendered natural number is a non-empty run of digits. |
| Strings.IntToString | themer_sogou.cpp:231-233 | A rendered integer is non-empty. |
| Strings.NatToStringValue | themer_sogou.cpp:231-233 | The digits rendered for n have value n. |
| Strings.ToIntIntToString | themer_sogou.cpp:231-233 | `toInt` reads back every 32-bit integer written in decimal. |
| Strings.IntToStringPlain | themer_sogou.cpp:231-233 | A rendered integer has no surrounding white space and consists only of a sign and digits. |
| Strings.ToIntIgnoresSurroundingSpace | themer_sogou.cpp:213 | White space around a number does not change what `toInt` reads. |
| Strings.LeftJustified | themer_sogou.cpp:384-385 | `leftJustified(w, fill)` keeps the string as a prefix, pads it with the fill character up to w and never truncates it. |
| Strings.ReplaceRemovesZeroX | themer_sogou.cpp:384-385 | After `replace("0x", "#")` no `0x` is left. |
| Strings.ReplaceKeepsHex | themer_sogou.cpp:384-385 | The replacement leaves a run of hex digits unchanged. |
| Strings.NormalizeHexColor | themer_sogou.cpp:384-385 | A `0x` colour of up to six hex digits becomes `#` and the digits padded with `0` to six digits. |
| NinePatch.MakeSkin | themer_sogou.cpp:111-133 | `PreEditBarSkin(pix, cuts)` keeps the image size as `skinw/skinh`, and each piece is the copy of its slice rectangle, row by row. |
| NinePatch.CopiedPieces | themer_sogou.cpp:115-123 | The nine pieces are, in row order, the copies of the nine slice rectangles. |
| NinePatch.CellOf | themer_sogou.cpp:115-123 | Every pixel is assigned one of the nine slices. |
| NinePatch.SliceSizesSum | themer_sogou.cpp:115-123 | With ordered cuts inside the image, the slices have non-negative sizes, lie edge to edge, and every row adds up to the image width and every column to its height. |
| NinePatch.SlicePartition | themer_sogou.cpp:115-123 | A pixel lies in slice k exactly when it lies in the image and falls in cell k. |
| NinePatch.SlicesDisjoint | themer_sogou.cpp:115-123 | No pixel lies in two slices. |
| NinePatch.SliceInside | themer_sogou.cpp:115-123 | With cuts strictly inside the image, every slice is non-empty and inside the image. |
| NinePatch.PieceInPlace | themer_sogou.cpp:124-132 | A piece moved back to its slice covers exactly the source pixels of that slice. |
| NinePatch.SlicesReassemble | themer_sogou.cpp:111-133 | Each piece has its slice's size, and the nine piece masks put back together are exactly the source image's mask: slicing loses no pixel and invents none. |
| Overlays.IndexOf | themer_sogou.cpp:275 | The index of a name is -1 exactly when the name is absent, and otherwise points to an entry of that name. |
| Overlays.Touch | themer_sogou.cpp:265 | After `overlays[name]`, the name is in the table. |
| Overlays.TouchKeeps | themer_sogou.cpp:265 | `operator[]` adds nothing for a known name, appends one default entry for a new name, and keeps names distinct. |
| Overlays.TouchLookup | themer_sogou.cpp:265 | After `operator[]`, the name maps to its old value or, when it was new, to a default overlay. Every other name keeps its value. |
| Overlays.ReplaceLookup | themer_sogou.cpp:265-273 | Writing through the reference `operator[]` returns changes the value of that name only. It keeps the table's length and keeps names distinct. |
| Overlays.TouchReplaceLookup | themer_sogou.cpp:265-273 | Touching a name, then writing its value, gives the new value under the name. The value it replaced was the old or default one. Other names keep theirs, and an entry is added exactly when the name was new. |
| Overlays.InsertLookup | themer_sogou.cpp:260 | After `insert`, the name maps to the new value, every other name keeps its value, the table grows by one exactly when the name was new, and names stay distinct. |
| Overlays.Insert | themer_sogou.cpp:258-261 | Defines `QHash::insert` on the entry list: a known name's entry is replaced in place, a new name is appended. `InsertLookup` states its lookups. |
| Overlays.ValuesAreLookups | themer_sogou.cpp:52-57 | Iterating over the table's values visits the value of every name in it, and every value visited is the value of some name. |
| Overlays.CalculateOverlaySurrounding | themer_sogou.cpp:46-94 | The iterator loop computes exactly the insets `Surrounding` of the table's values. |
| Overlays.Surrounding | themer_sogou.cpp:52-92 | Defines the insets as the `switch` of each overlay applied in iteration order from zero. `SurroundingIsMax` states each inset as a maximum, and `SurroundingOrderFree` its independence of order. |
| Overlays.SurroundingIsMax | themer_sogou.cpp:56-90 | Each inset is 0 or the largest extent over the areas on its side: `opl` over the widths of areas 1, 4 and 7; `opr` over 3, 6 and 9; `opt` over the heights of 1, 2 and 3; `opb` over 7, 8 and 9. Area 5 and unknown areas reserve nothing. |
| Overlays.InsetUnique | themer_sogou.cpp:56-90 | An inset is fixed by the set of overlays it is taken over. |
| Overlays.SurroundingOrderFree | themer_sogou.cpp:52-92 | The insets do not depend on the hash's iteration order. |
| Overlays.CDiv | themer_sogou.cpp:726 | C++ division truncates toward zero: the remainder has the dividend's sign and is smaller than the divisor. |
| Overlays.OverlayOffset | themer_sogou.cpp:720-819 | Defines the 9-area offset shared by the mask and by painting (lines 951-1050 repeat it): the corner areas are pushed out by the margins, the edge and centre areas use the sub-mode's centring, start or end position, and an invalid sub-mode or area gives no offset. `OffsetOutsideGrid`, `OffsetBadHMode`, `OffsetBadVMode`, `OffsetIsGrid` and `OverlayInsideInsetBand` state its properties. |
| Overlays.OffsetOutsideGrid | themer_sogou.cpp:816-818 | An overlay whose area is outside 1..9 stays at the origin. |
| Overlays.OffsetBadHMode | themer_sogou.cpp:720-819 | A horizontal sub-mode outside 0..2 gives no horizontal offset. In the edge areas 2 and 8 it gives no offset at all. |
| Overlays.OffsetBadVMode | themer_sogou.cpp:720-819 | A vertical sub-mode outside 0..2 gives no vertical offset. In the edge areas 4 and 6 it gives no offset at all. |
| Overlays.OffsetIsGrid | themer_sogou.cpp:720-819 | With valid sub-modes, overlays in the same column of the grid get the same x offset, and overlays in the same row get the same y offset. |
| Overlays.OverlayInsideInsetBand | themer_sogou.cpp:56-90 | An overlay flush against a side with no outward margin lies inside that side's inset band. |
| Overlays.CentringAsWritten | themer_sogou.cpp:726 | The centring sub-mode puts the overlay's left edge at `(W + opl - opr + ow) / 2`. |
| Overlays.CentringExample | themer_sogou.cpp:758 | A 20-pixel overlay centred in a 100-pixel bar without insets starts at 60. |
| ThemeConfig.SectionOf | themer_sogou.cpp:196-203 | A header sets each section flag exactly when it is that section's name. |
| ThemeConfig.InitialState | themer_sogou.cpp:173-186 | Defines the state before the first line: no section, font size 12, empty font and colour names, null skins, emptied overlay tables and slot counter 0; the layouts, the status-bar skin and the slots keep their earlier values. |
| ThemeConfig.DisplayLine | themer_sogou.cpp:210-221 | Defines one `[Display]` line: `font_size` is trimmed and read as a number, the font and colour keys store the value as it is, other keys change nothing. `Themer.FontSizeLine` states what a size line does. |
| ThemeConfig.SchemeLine | themer_sogou.cpp:223-335 | Defines one scheme line, the keys tried in the source's order. `SchemeLineValid`, `LayoutHorizontalRead`, `LayoutVerticalRead`, `HorizontalSchemeVerticalOverride`, `MarginsRead`, `DisplayKeyRead`, `AlignRead` and `SetPixmapLookup` state what each key does. |
| ThemeConfig.SetPixmap | themer_sogou.cpp:275-280 | Defines an image line for a known overlay: only that entry's image changes. `SetPixmapLookup` and `SetPixmapValid` state it. |
| ThemeConfig.ApplyLine | themer_sogou.cpp:191-354 | One pass of the loop keeps six icon slots and never moves the slot counter backwards or past 6. |
| ThemeConfig.ParseLines | themer_sogou.cpp:191-354 | The same two facts hold for a whole run of lines. |
| ThemeConfig.ParseLinesAppend | themer_sogou.cpp:191-354 | Reading `a + b` is reading `b` from the state after `a`. |
| ThemeConfig.HeaderAndIgnoredLines | themer_sogou.cpp:194-209 | A header line only selects the section. Outside the display, scheme and status-bar sections (`[General]` included), any other line changes nothing. |
| ThemeConfig.ApplyLineValid | themer_sogou.cpp:191-354 | Reading a line keeps the parse state well formed. |
| ThemeConfig.ParseLinesValid | themer_sogou.cpp:191-354 | Reading any lines keeps the parse state well formed. |
| ThemeConfig.ApplyLineSlot | themer_sogou.cpp:344-352 | A line either leaves the slots alone, or writes the next free slot only and advances the counter past it. |
| ThemeConfig.StorePos | themer_sogou.cpp:347-350 | A stored position keeps six slots and advances the counter by at most one, never past 6. |
| ThemeConfig.StatusBarLine | themer_sogou.cpp:337-353 | A status-bar line keeps six slots and never moves the counter backwards or past 6. |
| ThemeConfig.Accepted | themer_sogou.cpp:347 | Only points with both coordinates non-zero are stored. |
| ThemeConfig.StoreAll | themer_sogou.cpp:344-352 | A run of storing keeps six slots and never takes the counter past 6. |
| ThemeConfig.StoreAllSlots | themer_sogou.cpp:344-352 | A run of `_pos` points fills the free slots with the accepted points in file order, up to six in all. The counter advances by the number filled, and every other slot and every other member keeps its value. |
| ThemeConfig.PosLines | themer_sogou.cpp:344-346 | One `_pos` line per point. |
| ThemeConfig.PosLineRead | themer_sogou.cpp:344-352 | In `[StatusBar]`, a line `name_pos=x,y` tries to store (x, y) in the next slot. |
| ThemeConfig.PosLinesRead | themer_sogou.cpp:344-352 | A run of `_pos` lines in `[StatusBar]` stores its points in turn. |
| ThemeConfig.WithAlign | themer_sogou.cpp:264-273 | Storing `_align` numbers keeps the overlay's image. |
| ThemeConfig.SetAlign | themer_sogou.cpp:262-274 | After an `_align` line the name is in the table. |
| ThemeConfig.SetAlignLookup | themer_sogou.cpp:262-274 | `_align` stores its numbers under the name on top of the entry's image (a null image for a new name). It leaves other names alone, adds an entry exactly when the name was new, and keeps names distinct. |
| ThemeConfig.SetPixmapLookup | themer_sogou.cpp:275-280 | An image line for a known overlay replaces that overlay's image only. |
| ThemeConfig.InsertValid | themer_sogou.cpp:258-261 | `_display` keeps the table's images well formed and its names distinct. |
| ThemeConfig.SetAlignValid | themer_sogou.cpp:262-274 | `_align` keeps the table well formed. |
| ThemeConfig.SetPixmapValid | themer_sogou.cpp:275-280 | An image line keeps the table well formed. |
| ThemeConfig.SchemeLineValid | themer_sogou.cpp:223-336 | Any scheme line keeps the scheme's images well formed and its names distinct. |
| ThemeConfig.ReadNumberList | themer_sogou.cpp:231-233 | A comma list of 32-bit numbers splits back into the numbers, and field i reads as number i, whether trimmed or not. |
| ThemeConfig.ReadKeyValue | themer_sogou.cpp:205-206 | A line `key=value` with no `=` in key or value splits into exactly the key and the value. |
| ThemeConfig.NumberListPlain | themer_sogou.cpp:205-206 | A number list holds no `=`. |
| ThemeConfig.LayoutHorizontalRead | themer_sogou.cpp:230-234 | `layout_horizontal=a,b,c` sets `hstm, hsl, hsr` to a, b and c and nothing else, in either scheme. |
| ThemeConfig.LayoutVerticalRead | themer_sogou.cpp:293-298 | In `[Scheme_V1]`, `layout_vertical=a,b,c` sets `vstm, vst, vsb` to a, b and c and nothing else. |
| ThemeConfig.HorizontalSchemeVerticalOverride | themer_sogou.cpp:235-243 | In `[Scheme_H1]`, `layout_vertical` always forces scale mode with `vst = vsb = 1`. No other key touches those three members. |
| ThemeConfig.MarginsRead | themer_sogou.cpp:244-257 | `pinyin_marge` stores its four numbers as `pt pb pl pr`, and `zhongwen_marge` as `zt zb zl zr`. |
| ThemeConfig.MarginValues | themer_sogou.cpp:244-257 | Each margin line stores, in the order top, bottom, left, right, whatever the trimmed fields 0..3 of its value read as. Nothing else in the state changes. |
| ThemeConfig.WithAlignValues | themer_sogou.cpp:266-273 | The eight stored fields are the numbers read from fields 0..9 in the source's order. The two mode fields add two numbers each. |
| ThemeConfig.WithAlignNumbers | themer_sogou.cpp:264-273 | Ten numbers give margins n0..n3, vertical mode n4 + n5, horizontal mode n6 + n7, area n8 and target n9. |
| ThemeConfig.AlignRead | themer_sogou.cpp:262-274 | An `_align` line of ten numbers gives the named overlay exactly those fields, keeping the image it had (none for a new name). |
| ThemeConfig.DisplayKeyRead | themer_sogou.cpp:258-261 | `name_display` gives `name`, with the suffix dropped, a fresh default entry. Skin and layout are left alone. |
| ThemeConfig.NormalizeCuts | themer_sogou.cpp:356-363 | After normalisation each axis's cuts are ordered and are the two values `near` and `size - far`. Nothing else in the layout changes. |
| ThemeConfig.NormalizedInside | themer_sogou.cpp:356-363 | Cuts written inside the image end inside it and ordered. |
| ThemeConfig.CutsMayLeaveImage | themer_sogou.cpp:356-363 | A cut written beyond the image stays beyond it: normalisation only orders the cuts. |
| Tiling.StepsCover | themer_sogou.cpp:623 | `for (i = 0; i < span; i += period)` makes enough passes to cover the span, and for a positive span at least one pass and never a full period too many. |
| Tiling.UnionRepeated | themer_sogou.cpp:623-628 | After the loop, the accumulator holds its old pixels plus the copies of the moving region at every step taken. The moving region ends one step past the last. |
| Tiling.TileLine | themer_sogou.cpp:672-677 | A single-axis tiling loop yields the base region repeated once per pass. |
| Tiling.TilePair | themer_sogou.cpp:623-628 | The edge loop tiles both regions, each repeated once per pass. |
| Tiling.TileGrid | themer_sogou.cpp:694-705 | The nested centre loops yield the copies at every pair of steps. When the outer loop does not run, only the base remains. |
| Tiling.LineCopyAtQuotient | themer_sogou.cpp:623-628 | Copy number `x / period` covers (x, y) exactly when the tile covers (x mod period, y). |
| Tiling.LineCopyInPeriod | themer_sogou.cpp:623-628 | Any copy covering a pixel is the copy at its quotient. |
| Tiling.RepeatedIsPeriodic | themer_sogou.cpp:623-630 | Inside the span, the tiled edge is the periodic extension of the tile. |
| Tiling.ColumnCopyAtQuotient | themer_sogou.cpp:645-650 | The vertical counterpart of `LineCopyAtQuotient`. |
| Tiling.ColumnCopyInPeriod | themer_sogou.cpp:645-650 | The vertical counterpart of `LineCopyInPeriod`. |
| Tiling.ColumnIsPeriodic | themer_sogou.cpp:645-652 | Inside the span, a region tiled downwards is the periodic extension of the tile. |
| Tiling.GridCopyAtQuotient | themer_sogou.cpp:694-705 | Copy (x / px, y / py) covers (x, y) exactly when the tile covers the remainders. |
| Tiling.GridCopyInPeriod | themer_sogou.cpp:694-705 | Any grid copy covering a pixel is the copy at its quotients. |
| Tiling.GridCovers | themer_sogou.cpp:694-705 | A pixel of the span whose remainders the tile covers is covered by the grid. |
| Tiling.GridCovered | themer_sogou.cpp:694-705 | A pixel covered by the grid has remainders the tile covers. |
| Tiling.GridIsPeriodic | themer_sogou.cpp:694-706 | Inside the span, the doubly tiled centre is the periodic extension of the tile in both directions. |
| Frame.ResizedTopBottom | themer_sogou.cpp:496-504 | Fitting the top and bottom edges changes those two pieces only, and keeps them well formed. |
| Frame.ResizedLeftRight | themer_sogou.cpp:505-513 | Fitting the left and right edges changes those two pieces only, and keeps them well formed. |
| Frame.ResizedCenter | themer_sogou.cpp:515-542 | The fitted centre is well formed. |
| Frame.ResizedSkin | themer_sogou.cpp:466-542 | The resized skin is well formed. |
| Frame.ResizeKeeps | themer_sogou.cpp:490-542 | Resizing keeps the corners and the natural size, and leaves every piece tiled along its axis as it was. |
| Frame.ResizeStretchesTopBottom | themer_sogou.cpp:496-504 | In stretch mode across, a non-null top edge becomes exactly as wide as the span between the top corners and keeps its height. A bottom edge as wide as the top edge does the same. A non-positive span nulls them. |
| Frame.ResizeStretchesLeftRight | themer_sogou.cpp:505-513 | The vertical counterpart: a stretched left edge (and a right edge of equal height) becomes as high as the span. |
| Frame.ResizeFitsCenter | themer_sogou.cpp:515-542 | A non-null centre is fitted to the spans exactly along the axes in stretch mode, and keeps its size along the tiled axes. |
| Frame.ResizeIdempotent | themer_sogou.cpp:466-542 | Resizing twice to the same size is resizing once. |
| Frame.FrameParts | themer_sogou.cpp:599-708 | The mask is built from nine parts. |
| Frame.TopMask | themer_sogou.cpp:610-631 | Defines the top edge region: its mask in stretch mode, otherwise the mask tiled across the span and cut to `span x vst`. `TopPainted` and `TiledPartsInSpan` state its properties. |
| Frame.BottomMask | themer_sogou.cpp:610-631 | Defines the bottom edge region, tiled like the top edge and cut to the bottom edge's own height. `BottomPainted` states its properties. |
| Frame.LeftMask | themer_sogou.cpp:632-653 | Defines the left edge region: its mask in stretch mode, otherwise tiled down the span and cut to `hsl x span`. `LeftPainted` states its properties. |
| Frame.RightMask | themer_sogou.cpp:632-653 | Defines the right edge region, tiled like the left edge and cut to the right edge's own width. `RightPainted` states its properties. |
| Frame.CenterMask | themer_sogou.cpp:659-707 | Defines the centre region for the four mode pairs: the mask itself when stretched both ways, otherwise tiled along the tiled axes and cut to the spans. `Tiling.GridIsPeriodic` and `CenterPainted` state its properties. |
| Frame.FrameMask | themer_sogou.cpp:710 | Defines the frame mask as the union of the nine parts. `FrameMaskAt` states which pixels it holds. |
| Frame.FrameMaskParts | themer_sogou.cpp:599-710 | The frame mask is the union of the nine parts: the corners at their translations, the edges moved by `hsl`, `vst` and the spans, and the centre moved to `(hsl, vst)`. |
| Frame.FrameMaskAt | themer_sogou.cpp:710 | A pixel is in the frame mask exactly when it is in one of the nine parts. |
| Frame.TiledPartsInSpan | themer_sogou.cpp:616-708 | In tile mode, each tiled edge and the tiled centre stay inside their span rectangle before translation. |
| Frame.WithOverlaysAt | themer_sogou.cpp:712-822 | The overlay loop adds exactly the placed overlays: a pixel is in the result when it was in the accumulator or in some overlay's mask at its offset, and only then. |
| Frame.PreEditBarMaskOf | themer_sogou.cpp:562-823 | Defines the mask `updatePreEditBarMask` leaves: the frame mask with every overlay's placed mask added in iteration order. `PreEditBarMaskAt` states which pixels it holds. |
| Frame.PreEditBarMaskAt | themer_sogou.cpp:562-823 | The preedit bar mask is the nine frame parts together with every placed overlay. |
| PreEditLayout.VerticalLookupWidth | themer_sogou.cpp:410-415 | The vertical table width is non-negative and at least the width of every trimmed label plus candidate. |
| PreEditLayout.VerticalLookupWidthAttained | themer_sogou.cpp:409-415 | The vertical table width is 0, the `qMax` fold's start, or the width of one trimmed label plus candidate. With `VerticalLookupWidth` it is the widest entry, or 0. |
| PreEditLayout.ConcatAppend | themer_sogou.cpp:429 | `join(QString())` of two lists put together is the two joins side by side, and a single part joins to itself. |
| PreEditLayout.AlignWidth | themer_sogou.cpp:441-447 | With resizing off, a width beyond the skin is rounded up to the skin width plus a multiple of 70, by less than 70. Other widths are kept. |
| PreEditLayout.AlignWidthIsLeast | themer_sogou.cpp:441-447 | The rounded width is the least `skinw + 70 k` that holds the content. |
| PreEditLayout.AlignWidthExample | themer_sogou.cpp:441-447 | A 340-pixel content on a 300-pixel skin gets 370 pixels, and 300 stays 300. |
| PreEditLayout.SizeHint | themer_sogou.cpp:393-450 | Defines `sizeHintPreEditBar` for one scheme: the skin's size grown to the preedit line and the lookup table with margins and insets, the width rounded when resizing is off. `SizeHintBounds` states its bounds. |
| PreEditLayout.SizeHintBounds | themer_sogou.cpp:393-450 | The hint holds the skin, the preedit line and the lookup table, each with margins and insets. With resizing, the width is one of the three, and the height is either the skin's or the content's. With resizing disabled, a width beyond the skin is the least step multiple that holds them. |
| PreEditLayout.BackgroundOps | themer_sogou.cpp:905-941 | The frame is nine paint requests. |
| PreEditLayout.TopOp | themer_sogou.cpp:912-921 | Defines the top edge request: drawn at `(hsl, 0)` in stretch mode, tiled over `span x vst` otherwise. `TopPainted` states that it paints the top part of the mask. |
| PreEditLayout.BottomOp | themer_sogou.cpp:912-921 | Defines the bottom edge request, below the side edges, tiled to the bottom edge's height. `BottomPainted` states what it paints. |
| PreEditLayout.LeftOp | themer_sogou.cpp:922-931 | Defines the left edge request: drawn at `(0, vst)` or tiled over `hsl x span`. `LeftPainted` states what it paints. |
| PreEditLayout.RightOp | themer_sogou.cpp:922-931 | Defines the right edge request, right of the top edge, tiled to the right edge's width. `RightPainted` states what it paints. |
| PreEditLayout.CenterOp | themer_sogou.cpp:934-941 | Defines the centre request: drawn at `(hsl, vst)` when neither axis tiles, tiled over the inner rectangle otherwise. `CenterPainted` states what it paints. |
| PreEditLayout.TiledAt | themer_sogou.cpp:919-920 | `drawTiledPixmap` paints, inside its rectangle, the tile's pixel at the remainders of the offsets. |
| PreEditLayout.AcrossPainted | themer_sogou.cpp:616-630 | A tile repeated across a span and clipped, as the mask builds it, is what `drawTiledPixmap` paints over the span. |
| PreEditLayout.DownPainted | themer_sogou.cpp:638-652 | The vertical counterpart of `AcrossPainted`. |
| PreEditLayout.GridPainted | themer_sogou.cpp:692-706 | The doubly tiled centre, clipped, is what `drawTiledPixmap` paints. |
| PreEditLayout.TopPainted | themer_sogou.cpp:912-921 | The top edge as painted covers exactly the top part of the mask. |
| PreEditLayout.BottomPainted | themer_sogou.cpp:912-921 | The bottom edge as painted covers exactly the bottom part of the mask. |
| PreEditLayout.LeftPainted | themer_sogou.cpp:922-931 | The left edge as painted covers exactly the left part of the mask. |
| PreEditLayout.RightPainted | themer_sogou.cpp:922-931 | The right edge as painted covers exactly the right part of the mask. |
| PreEditLayout.CenterPainted | themer_sogou.cpp:934-941 | The centre as painted covers exactly the centre part of the mask. |
| PreEditLayout.CornersPaintFrame | themer_sogou.cpp:906-909 | The corners are painted at the places the mask moves them to. |
| PreEditLayout.EdgesPaintFrame | themer_sogou.cpp:912-941 | The edges and the centre, drawn or tiled, cover exactly their parts of the mask. |
| PreEditLayout.BackgroundPaintsFrame | themer_sogou.cpp:905-941 | Mask and painting agree piece by piece: each of the nine pieces paints exactly its part of the mask. |
| PreEditLayout.SlicedPieceSize | themer_sogou.cpp:111-133 | A piece sliced with cuts strictly inside the image has exactly its slice's width and height. |
| PreEditLayout.SlicedResizedFits | themer_sogou.cpp:466-542 | A skin sliced with cuts strictly inside its image and then resized to a size with positive spans between the corners has every tiled piece one period long and as wide as its span, so the piece-by-piece agreement of mask and painting applies to it. |
| PreEditLayout.OverlayOps | themer_sogou.cpp:944-1054 | One paint request per overlay. |
| PreEditLayout.OverlayPaintedWhereMasked | themer_sogou.cpp:951-1051 | Each overlay is painted at the offset its mask is moved by, so the pixels it paints are exactly its placed part of the mask. |
| PreEditLayout.PreEditOps | themer_sogou.cpp:1058-1075 | Defines the preedit line requests: the text and aux text in the margins, and the caret when the preedit is visible. `CaretPlacement` states them. |
| PreEditLayout.LabelOp | themer_sogou.cpp:1091-1095 | Defines the label request of an entry: as wide as the label, one cell high, in the label font and colour. |
| PreEditLayout.CandidateOp | themer_sogou.cpp:1098-1101 | Defines the candidate request of an entry: the trimmed candidate (followed by a space in a horizontal table, lines 1114-1117), as wide as that text, in the candidate font and colour. |
| PreEditLayout.VerticalRows | themer_sogou.cpp:1088-1104 | Two requests per entry. |
| PreEditLayout.HorizontalRows | themer_sogou.cpp:1105-1120 | Two requests per entry. |
| PreEditLayout.LookupOps | themer_sogou.cpp:1077-1121 | A visible table paints two requests per entry that has both a label and a candidate. A hidden table paints nothing. |
| PreEditLayout.CaretPlacement | themer_sogou.cpp:1060-1073 | The preedit line is painted only when the preedit or the aux text is visible. The caret is drawn exactly when the preedit is visible, at the width of the text before the cursor, over the line's height. |
| PreEditLayout.VerticalRowsLayout | themer_sogou.cpp:1088-1104 | Entry i of a vertical table is at height `y0 + i * cell height`, its label at x0 and its candidate where the label ends. |
| PreEditLayout.HorizontalRowsLayout | themer_sogou.cpp:1105-1120 | A horizontal table is one line: the first label is at x0, each candidate starts where its label ends, and each label starts where the previous candidate ends. |
| PreEditLayout.EntryXIsLabel | themer_sogou.cpp:1105-1120 | The label of entry i starts at the sum of the widths of the entries before it. |
| PreEditLayout.PaintList | themer_sogou.cpp:855-1122 | Defines everything `drawPreEditBar` paints, in order: the frame, the overlays, the preedit line and the lookup table. `Themer.ThemerSogou.DrawPreEditBar` paints exactly it. |
| Themer.FontSizeLine | themer_sogou.cpp:212-213 | A `font_size` value that is a 32-bit number with white space around it, including an ideographic space in front, sets the fonts to that size when it is positive (`setPixelSize`, lines 373-376) and leaves them alone otherwise. |
| Themer.LoadedStyle | themer_sogou.cpp:372-388 | The preedit font takes the English family and the candidate font the Chinese one, both bold at the size read. The label font and colour are the candidate's. The heights come from the metrics, and the colours are the file's strings in `#` notation. |
| Themer.AfterLoad | themer_sogou.cpp:356-388 | After a load both skins are well formed, both schemes' cuts are ordered, and each scheme's insets are the surrounding of its overlays. |
| Themer.LoadedScheme | themer_sogou.cpp:356-370 | A scheme's skin is well formed and its overlay table is the one read. |
| Themer.LoadForgetsOverlays | themer_sogou.cpp:174-186 | A load depends on the previous members only through the layouts, the status-bar skin, the icon slots and the pixel sizes of the preedit and candidate fonts. The overlays, skins and insets of an earlier theme are cleared, and so are its font families, weights, line heights and colours. |
| Themer.ThemerSogou.constructor | themer_sogou.cpp:105-109 | A new engine has empty skins and overlay tables, a null status-bar skin, icon slots at the origin and the default fonts. |
| Themer.ThemerSogou.LoadTheme | themer_sogou.cpp:153-391 | Fails and changes nothing exactly when the file is missing, not a zip or without `skin.ini`. Otherwise the members are what reading the lines and setting up from them gives, and the icon slots are those the lines wrote. |
| Themer.ThemerSogou.LoadSkinIni | themer_sogou.cpp:171-391 | The loop ends in the state `ParseLines` gives. The members are set up from it and the masks are left alone. |
| Themer.ThemerSogou.SetUp | themer_sogou.cpp:356-388 | The members become `AfterLoad` of the final parse state, and the masks are untouched. |
| Themer.ReadLines | themer_sogou.cpp:191-354 | The line loop ends in `ParseLines` of the lines, with the member array holding the slots written. |
| Themer.LoadMembers | themer_sogou.cpp:356-388 | The set-up after the loop produces exactly `AfterLoad`. |
| Themer.LoadScheme | themer_sogou.cpp:356-370 | One scheme's set-up produces exactly `LoadedScheme`. |
| Themer.ThemerSogou.SizeHintPreEditBar | themer_sogou.cpp:393-450 | The size hint of the scheme the settings select, as `SizeHint` (whose bounds `SizeHintBounds` states). |
| Themer.ComputeSizeHint | themer_sogou.cpp:397-449 | The size-hint computation yields `SizeHint`. |
| Themer.SizeHintOf | themer_sogou.cpp:397-449 | The hint in terms of the three measured quantities: the preedit width, the table width and the content height. |
| Themer.VerticalLookup | themer_sogou.cpp:409-415 | The vertical loop finds the widest entry and adds one candidate line per entry. |
| Themer.HorizontalLookup | themer_sogou.cpp:429-433 | The horizontal loop builds the string that is measured. |
| Themer.ThemerSogou.SizeHintStatusBar | themer_sogou.cpp:452-455 | The status bar is as large as its skin. |
| Themer.ThemerSogou.LayoutStatusBar | themer_sogou.cpp:457-464 | Each of the first six items is placed at its icon slot with its maximum size. Further items keep their place. |
| Themer.IconRect | themer_sogou.cpp:462 | An icon's rectangle contains its slot exactly when the item's size is positive. |
| Themer.ThemerSogou.ResizePreEditBar | themer_sogou.cpp:466-550 | Only the skin of the scheme in use changes, to `ResizedSkin`. When a setting needs a mask, the mask is rebuilt for the new size; otherwise it is kept. |
| Themer.ResizeSkin | themer_sogou.cpp:490-542 | The three fitting steps yield `ResizedSkin`. |
| Themer.ResizeTopBottom | themer_sogou.cpp:496-504 | The edge step across yields `ResizedTopBottom`. |
| Themer.ResizeLeftRight | themer_sogou.cpp:505-513 | The edge step down yields `ResizedLeftRight`. |
| Themer.ResizeCenter | themer_sogou.cpp:515-542 | The centre step yields `ResizedCenter`. |
| Themer.ThemerSogou.ResizeStatusBar | themer_sogou.cpp:552-560 | When a setting needs a mask, the status-bar skin is rescaled and the mask is its opacity mask. Otherwise both are kept. |
| Themer.ThemerSogou.UpdateStatusBarMask | themer_sogou.cpp:825-829 | The status-bar skin is replaced by its rescaling, and the mask is the opacity mask of the rescaled skin. |
| Themer.ThemerSogou.UpdatePreEditBarMask | themer_sogou.cpp:562-823 | The preedit bar mask has the pixels of `PreEditBarMaskOf`, which `PreEditBarMaskAt` characterises. No other member changes. |
| Themer.FramePartsSame | themer_sogou.cpp:596-710 | Uniting, in the source's order, corners and parts alike to the edge and centre masks, each moved to its place, gives exactly `FrameMask`. |
| Themer.FrameUnionSame | themer_sogou.cpp:702-710 | Uniting the nine parts keeps pixel-wise equality when the five tiled parts are replaced by alike regions. |
| Themer.FrameRegion | themer_sogou.cpp:596-710 | The frame part of the mask has the pixels of `FrameMask`. |
| Themer.EdgesAcross | themer_sogou.cpp:609-631 | The top and bottom edge regions are the models' `TopMask` and `BottomMask`. |
| Themer.EdgesDown | themer_sogou.cpp:632-653 | The left and right edge regions are the models' `LeftMask` and `RightMask`. |
| Themer.CenterRegion | themer_sogou.cpp:660-708 | The centre region is the model's `CenterMask`. |
| Themer.AddOverlays | themer_sogou.cpp:712-822 | The overlay loop adds the placed overlays to the frame, as `WithOverlays` does. |
| Themer.ThemerSogou.MaskPreEditBar | themer_sogou.cpp:831-834 | The bar gets the mask of the last update. |
| Themer.ThemerSogou.MaskStatusBar | themer_sogou.cpp:836-843 | A pixel is in the status-bar mask exactly when it is in the skin's mask or in some layout item's rectangle. |
| Themer.ThemerSogou.DrawPreEditBar | themer_sogou.cpp:855-1122 | Paints the frame, the overlays, the preedit line and the lookup table, in that order, for the scheme in use and the widget's size. The parts are related to the mask by `BackgroundPaintsFrame` and `OverlayPaintedWhereMasked`. |
| Themer.BackgroundPaint | themer_sogou.cpp:905-941 | The frame requests are `BackgroundOps`. |
| Themer.PaintOverlays | themer_sogou.cpp:944-1054 | The overlay requests are `OverlayOps`. |
| Themer.PaintPreEdit | themer_sogou.cpp:1057-1073 | The preedit requests are `PreEditOps`. |
| Themer.PaintVerticalRows | themer_sogou.cpp:1088-1104 | The vertical table loop paints `VerticalRows`. |
| Themer.PaintHorizontalRows | themer_sogou.cpp:1105-1120 | The horizontal table loop paints `HorizontalRows`. |
| StatusBar.ExtractProperty | statusbar.cpp:60-71 | The four fields are all free of `:`. |
| StatusBar.ExtractPropertyString | statusbar.cpp:60-71 | A property whose fields hold no `:` is read back from `objectPath:name:iconName:description`, whatever fields follow. |
| StatusBar.IndexOf | statusbar.cpp:220 | `indexOf` is -1 exactly when the path is absent, and otherwise the first position of the path. |
| StatusBar.IndexOfUnique | statusbar.cpp:220 | In a list without duplicates, an element's position is its only position. |
| StatusBar.RegisterOne | statusbar.cpp:217-239 | Registering keeps the paths and items side by side and the paths distinct. |
| StatusBar.RegisterOneSpec | statusbar.cpp:217-239 | An unknown path is appended with a new item showing the property, with the new widget's maximum size and geometry as given. A known path keeps its index and only its item's widget changes. The size is recomputed exactly when the entry is the last one. |
| StatusBar.RegisterAll | statusbar.cpp:214-241 | Registering a list keeps the registry well formed. |
| StatusBar.RegisterAllKeeps | statusbar.cpp:214-241 | Registration only appends, and every registered path ends up in the registry. |
| StatusBar.UpdateProperty | statusbar.cpp:243-258 | An unknown path changes nothing. A known path's item shows the property and keeps its maximum size and geometry, and every other item is kept. |
| StatusBar.RemoveProperty | statusbar.cpp:260-274 | An unknown path changes nothing. Otherwise the path is no longer registered. |
| StatusBar.RemoveKeepsOrder | statusbar.cpp:260-274 | Removing a known path takes out exactly its entry from both lists, and the other entries keep their order. |
| StatusBar.RegisterThenRemove | statusbar.cpp:214-274 | Registering a new path and then removing it restores the paths and the items. |
| StatusBar.Filter | statusbar.cpp:163-185 | Defines `eventFilter` on the drag state: a right press grabs the point under the mouse and is consumed, another press ends the drag and is passed on, a move while dragging moves the bar and is consumed, anything else is passed on. `DragFollowsMouse`, `DragSteps`, `OtherPressStopsDrag` and `StillSteps` state its behaviour. |
| StatusBar.DragFollowsMouse | statusbar.cpp:163-185 | After a right-button press, every move puts the bar at the mouse position less the grabbed point, so the grabbed point stays under the mouse. |
| StatusBar.DragSteps | statusbar.cpp:179-183 | While dragging, moves keep the grab and put the bar under the last mouse position. |
| StatusBar.OtherPressStopsDrag | statusbar.cpp:176-183 | A press of another button is not consumed and ends the drag. Later moves leave the bar where it is. |
| StatusBar.StillSteps | statusbar.cpp:179-184 | Moves while not dragging change nothing. |
| StatusBar.StatusBarLayout.constructor | statusbar.cpp:109-110 | A new layout has no items. |
| StatusBar.Bar.constructor | statusbar.cpp:109-127 | A new bar has no properties and is not dragging. |
| StatusBar.Bar.RegisterProperties | statusbar.cpp:214-241 | The loop leaves the registry as `RegisterAll` of the list and does not touch the drag state. |
| StatusBar.Bar.RegisterPropertyString | statusbar.cpp:217-239 | One pass changes the registry as `RegisterOne`. |
| StatusBar.Bar.UpdatePropertyString | statusbar.cpp:243-258 | The registry changes as `UpdateProperty`. |
| StatusBar.Bar.RemovePropertyString | statusbar.cpp:260-274 | The registry changes as `RemoveProperty`. |
| StatusBar.Bar.EventFilter | statusbar.cpp:163-185 | The drag state and the consumed flag follow `Filter`, and the registry is untouched. |

## Left out

- Reading the theme is not modelled as I/O. The path comes from the settings and is then opened with `QFile`/`KZip`, and `skin.ini` is split into lines; instead the theme file is a parameter. It is missing, not a zip, or an archive with its `skin.ini` lines and its decoded images by entry name. Image decoding (`loadFromData`) is the lookup of a decoded image: a missing entry leaves the pixmap unchanged.
- Fonts are not modelled beyond their family, pixel size and boldness. `QFontMetrics` is a `Metrics` parameter giving the width of a string and the height of a font.
- `QPixmap::scaled` picks its pixels through a `Resampler` parameter. The model pins down only its size and its null/same-size cases.
- A `QColor` is kept as its normalised colour string; parsing it is left out.
- The `KIMToySettings` flags are a `Settings` parameter, not a singleton. `ThemerSogou::self` is left out.
- Blurring (`blurPreEditBar`, `blurStatusBar`) calls into the KDE window system, so it is left out. So are the colourize fill of `drawPreEditBar`, which paints the mask's region in a colour, and painting text pixels: text and lines paint requests with no coverage in the mask.
- `drawStatusBar` and `drawPropertyWidget` only paint a pixmap and an icon; they are not modelled.
- Strings.ToInt: the 32-bit range is modelled only as `toInt` rejecting out-of-range text. The width arithmetic elsewhere is on unbounded integers, so int32 wrap-around of large sizes is not modelled.
- Regions are membership predicates, not finite sets of rectangles. The model states which pixels a region holds, not how Qt stores it.
- `QHash` iteration order is taken as insertion order. `Overlays.SurroundingOrderFree` shows the insets do not depend on the order. The painting order of overlays does depend on it; the model's order is one possible hash order.
- The `PropertyWidget` objects, the signal mapper, the event-filter installation and `delete` of removed items are not modelled. A layout item is its widget's shown property, its maximum size and its geometry.
- `PropertyWidget`'s constructor is not part of this model. The maximum size and the geometry a new widget has are parameters of the registering members (`widgetSize`, `widgetGeometry`). `layoutStatusBar` re-places only the first six items, so an item past the sixth keeps that geometry, and `maskStatusBar` adds it to the mask.
- `updateSize` is modelled only as a count of size recomputations. Its `resize` is the window system's.
- `slotEnable`, `slotTriggerProperty`, `slotExecDialog`, `resizeEvent` and `paintEvent` of the status bar are panel glue around the modelled operations, so they are left out.
- Frame.TilingTerminates: the mask loops are modelled only when each tiled period is positive or its span is not positive. A skin that tiles with a zero-width middle slice would make the source's loop `i += 0` run forever.
- The integer members that the C++ constructor leaves uninitialised start at 0.
- The model groups members without changing what they hold. The fonts, heights and colours are one `TextStyle`, and each scheme's `h_...` or `v_...` members are one `SchemeMembers`.
- scim-panel/panel.h is not part of this model.

## Design notes

- In a few places the code does less than a reader of the skin format would expect. The model follows the code:
  - **Centring term.** The centring sub-mode of an overlay uses `(W + opl - opr + ow) / 2`, which places the overlay `ow` to the right of the centred position. `Overlays.CentringAsWritten` and `Overlays.CentringExample` state it; the mask and painting use the term as written.
  - **Cuts are not bounded.** Normalising the cuts only orders them; a cut written beyond the image stays beyond it (`ThemeConfig.CutsMayLeaveImage`).
  - **Missing fields.** A field missing from an ini line (`QStringList::at` past the end) is read as the empty string, so it reads as 0.
- **Measuring differs from drawing.** The horizontal size hint measures the labels twice: all labels joined, then each trimmed label with its candidate. The vertical hint trims labels, but drawing does not. The mask is built for the size `resizePreEditBar` was given, while drawing uses the widget's own size.
- **Bottom edge.** The bottom edge is rescaled only when the top edge's width differs from the span, and the right edge only when the left edge's height differs.
- **White space.** `trimmed` and `toInt` skip the characters `QChar::isSpace` accepts in Qt 4, whose Unicode data still lists U+180E as a space separator. U+0085, which later Qt versions also accept, is not white space here.
- **Trimming.** `_align` numbers are read without trimming; the layout and margin numbers are trimmed. `ToInt` accepts surrounding white space, so both read the same numbers.
- **`extractProperty` needs four fields.** It assumes at least four `:`-separated fields, and the model requires that of its callers.
