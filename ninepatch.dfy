/**
  The nine-patch skin of the preedit bar: one source image cut by two
  vertical lines (`hsl`, `hsr`) and two horizontal lines (`vst`, `vsb`) into
  four corners, four edges and a centre, each kept with its opacity mask.
 */
module NinePatch {
  import opened Geometry

  /** `PreEditBarSkin`: the natural size of the source image and its nine pieces.
      The piece masks (`topRegion`, ...) are the masks carried by the pieces. */
  datatype PreEditBarSkin = PreEditBarSkin(
    skinw: int, skinh: int,
    topleft: Pixmap, top: Pixmap, topright: Pixmap,
    left: Pixmap, center: Pixmap, right: Pixmap,
    bottomleft: Pixmap, bottom: Pixmap, bottomright: Pixmap)

  /** The nine pieces of a skin, row by row. */
  function Pieces(s: PreEditBarSkin): seq<Pixmap> {
    [s.topleft, s.top, s.topright, s.left, s.center, s.right, s.bottomleft, s.bottom, s.bottomright]
  }

  /** The default skin before any theme is loaded: zero size, null pieces. */
  const EmptySkin: PreEditBarSkin :=
    PreEditBarSkin(0, 0, Null, Null, Null, Null, Null, Null, Null, Null, Null)

  ghost predicate ValidSkin(s: PreEditBarSkin) {
    && ValidPixmap(s.topleft) && ValidPixmap(s.top) && ValidPixmap(s.topright)
    && ValidPixmap(s.left) && ValidPixmap(s.center) && ValidPixmap(s.right)
    && ValidPixmap(s.bottomleft) && ValidPixmap(s.bottom) && ValidPixmap(s.bottomright)
  }

  /** The nine rectangles cut out of the source image, row by row. */
  function SliceRects(skinw: int, skinh: int, hsl: int, hsr: int, vst: int, vsb: int): seq<Rect> {
    [Rect(0, 0, hsl, vst), Rect(hsl, 0, hsr - hsl, vst), Rect(hsr, 0, skinw - hsr, vst),
     Rect(0, vst, hsl, vsb - vst), Rect(hsl, vst, hsr - hsl, vsb - vst), Rect(hsr, vst, skinw - hsr, vsb - vst),
     Rect(0, vsb, hsl, skinh - vsb), Rect(hsl, vsb, hsr - hsl, skinh - vsb), Rect(hsr, vsb, skinw - hsr, skinh - vsb)]
  }

  /** A skin whose pieces are the copies of nine rectangles of an image, row by row. */
  lemma CopiedPieces(s: PreEditBarSkin, src: Pixmap, r: seq<Rect>)
    requires ValidPixmap(src) && |r| == 9
    requires s.topleft == CopyRect(src, r[0]) && s.top == CopyRect(src, r[1]) && s.topright == CopyRect(src, r[2])
    requires s.left == CopyRect(src, r[3]) && s.center == CopyRect(src, r[4]) && s.right == CopyRect(src, r[5])
    requires s.bottomleft == CopyRect(src, r[6]) && s.bottom == CopyRect(src, r[7]) && s.bottomright == CopyRect(src, r[8])
    ensures forall k :: 0 <= k < 9 ==> Pieces(s)[k] == CopyRect(src, r[k])
  {
    var ps := Pieces(s);
    forall k | 0 <= k < 9 ensures ps[k] == CopyRect(src, r[k]) {
      if k < 3 {
        assert k == 0 || k == 1 || k == 2;
      } else if k < 6 {
        assert k == 3 || k == 4 || k == 5;
      } else {
        assert k == 6 || k == 7 || k == 8;
      }
    }
  }

  /** `PreEditBarSkin(skinpix, hsl, hsr, vst, vsb)`: each piece is the copy of its slice rectangle. */
  function MakeSkin(src: Pixmap, hsl: int, hsr: int, vst: int, vsb: int): (s: PreEditBarSkin)
    requires ValidPixmap(src)
    ensures ValidSkin(s)
    ensures s.skinw == src.width && s.skinh == src.height
    ensures forall k :: 0 <= k < 9 ==>
      Pieces(s)[k] == CopyRect(src, SliceRects(src.width, src.height, hsl, hsr, vst, vsb)[k])
  {
    var r := SliceRects(src.width, src.height, hsl, hsr, vst, vsb);
    var s := PreEditBarSkin(src.width, src.height,
      CopyRect(src, r[0]), CopyRect(src, r[1]), CopyRect(src, r[2]),
      CopyRect(src, r[3]), CopyRect(src, r[4]), CopyRect(src, r[5]),
      CopyRect(src, r[6]), CopyRect(src, r[7]), CopyRect(src, r[8]));
    CopiedPieces(s, src, r);
    s
  }

  /** The slice a pixel of the source image falls in, row by row. */
  function CellOf(p: Point, hsl: int, hsr: int, vst: int, vsb: int): (k: nat)
    ensures k < 9
  {
    var col := if p.x < hsl then 0 else if p.x < hsr then 1 else 2;
    var row := if p.y < vst then 0 else if p.y < vsb then 1 else 2;
    3 * row + col
  }

  /** With ordered cuts inside the image, the three columns of every row are
      `hsl`, `hsr - hsl` and `skinw - hsr` wide and add up to the image width,
      and the three rows of every column add up to its height. */
  lemma {:induction false} SliceSizesSum(skinw: int, skinh: int, hsl: int, hsr: int, vst: int, vsb: int, r: seq<Rect>)
    requires 0 <= hsl <= hsr <= skinw && 0 <= vst <= vsb <= skinh
    requires r == SliceRects(skinw, skinh, hsl, hsr, vst, vsb)
    ensures forall k :: 0 <= k < 9 ==> r[k].w >= 0 && r[k].h >= 0
    ensures r[0].w + r[1].w + r[2].w == skinw && r[3].w + r[4].w + r[5].w == skinw && r[6].w + r[7].w + r[8].w == skinw
    ensures r[0].h + r[3].h + r[6].h == skinh && r[1].h + r[4].h + r[7].h == skinh && r[2].h + r[5].h + r[8].h == skinh
    ensures r[0].x == r[3].x == r[6].x == 0 && r[0].y == r[1].y == r[2].y == 0
    ensures r[1].x == r[0].x + r[0].w && r[2].x == r[1].x + r[1].w
    ensures r[3].y == r[0].y + r[0].h && r[6].y == r[3].y + r[3].h
  {
  }

  /** With ordered cuts inside the image, the nine slice rectangles partition it:
      a pixel lies in slice `k` exactly when it lies in the image and `CellOf` is `k`,
      so every pixel of the image lies in exactly one slice. */
  lemma {:induction false} SlicePartition(skinw: int, skinh: int, hsl: int, hsr: int, vst: int, vsb: int, r: seq<Rect>, p: Point)
    requires 0 <= hsl <= hsr <= skinw && 0 <= vst <= vsb <= skinh
    requires r == SliceRects(skinw, skinh, hsl, hsr, vst, vsb)
    ensures forall k :: 0 <= k < 9 ==>
        (InRect(p, r[k]) <==> InRect(p, Rect(0, 0, skinw, skinh)) && CellOf(p, hsl, hsr, vst, vsb) == k)
  {
  }

  /** No pixel lies in two slices. */
  lemma {:induction false} SlicesDisjoint(skinw: int, skinh: int, hsl: int, hsr: int, vst: int, vsb: int, r: seq<Rect>, p: Point, j: nat, k: nat)
    requires 0 <= hsl <= hsr <= skinw && 0 <= vst <= vsb <= skinh
    requires r == SliceRects(skinw, skinh, hsl, hsr, vst, vsb)
    requires j < 9 && k < 9 && j != k
    ensures !(InRect(p, r[j]) && InRect(p, r[k]))
  {
    SlicePartition(skinw, skinh, hsl, hsr, vst, vsb, r, p);
  }

  /** The union of the nine piece masks, each moved back to where its slice lies. */
  function Reassembled(s: PreEditBarSkin, rects: seq<Rect>): Region
    requires |rects| == 9
  {
    var m := Pieces(s);
    Union(Union(Union(Translate(m[0].mask, rects[0].x, rects[0].y), Translate(m[1].mask, rects[1].x, rects[1].y)),
                Union(Translate(m[2].mask, rects[2].x, rects[2].y), Translate(m[3].mask, rects[3].x, rects[3].y))),
          Union(Union(Union(Translate(m[4].mask, rects[4].x, rects[4].y), Translate(m[5].mask, rects[5].x, rects[5].y)),
                      Union(Translate(m[6].mask, rects[6].x, rects[6].y), Translate(m[7].mask, rects[7].x, rects[7].y))),
                Translate(m[8].mask, rects[8].x, rects[8].y)))
  }

  /** The slices of cuts strictly inside an image are non-empty and lie inside it. */
  lemma SliceInside(skinw: int, skinh: int, hsl: int, hsr: int, vst: int, vsb: int, r: seq<Rect>, k: nat)
    requires 0 < hsl < hsr < skinw && 0 < vst < vsb < skinh
    requires r == SliceRects(skinw, skinh, hsl, hsr, vst, vsb)
    requires k < 9
    ensures Inside(r[k], skinw, skinh)
  {
  }

  /** A piece copied from a slice inside the image, moved back to the slice, covers
      exactly the source pixels of that slice. */
  lemma PieceInPlace(src: Pixmap, c: Rect, piece: Pixmap, x: int, y: int)
    requires ValidPixmap(src) && !src.IsNull() && Inside(c, src.width, src.height)
    requires piece == CopyRect(src, c)
    ensures piece.width == c.w && piece.height == c.h
    ensures Translate(piece.mask, c.x, c.y)(x, y) == (Within(x, y, c) && src.mask(x, y))
  {
    var u, v := x - c.x, y - c.y;
    TranslateAt(piece.mask, c.x, c.y, x, y);
    CopyInside(src, c, u, v);
    assert u + c.x == x && v + c.y == y;
  }

  /** With cuts strictly inside a non-null image every piece has the size of its
      slice rectangle, and the piece masks put back in place are exactly the
      opacity mask of the source image: slicing loses and invents no pixel. */
  lemma SlicesReassemble(src: Pixmap, hsl: int, hsr: int, vst: int, vsb: int, s: PreEditBarSkin, r: seq<Rect>)
    requires ValidPixmap(src) && !src.IsNull()
    requires 0 < hsl < hsr < src.width && 0 < vst < vsb < src.height
    requires s == MakeSkin(src, hsl, hsr, vst, vsb)
    requires r == SliceRects(src.width, src.height, hsl, hsr, vst, vsb)
    ensures forall k :: 0 <= k < 9 ==> Pieces(s)[k].width == r[k].w && Pieces(s)[k].height == r[k].h
    ensures forall x, y :: Reassembled(s, r)(x, y) == src.mask(x, y)
  {
    var m := Pieces(s);
    assert forall k :: 0 <= k < 9 ==> m[k] == CopyRect(src, r[k]);
    forall k | 0 <= k < 9
      ensures m[k].width == r[k].w && m[k].height == r[k].h
    {
      SliceInside(src.width, src.height, hsl, hsr, vst, vsb, r, k);
      PieceInPlace(src, r[k], m[k], 0, 0);
    }
    forall x, y ensures Reassembled(s, r)(x, y) == src.mask(x, y) {
      forall k | 0 <= k < 9
        ensures Translate(m[k].mask, r[k].x, r[k].y)(x, y) == (Within(x, y, r[k]) && src.mask(x, y))
      {
        SliceInside(src.width, src.height, hsl, hsr, vst, vsb, r, k);
        PieceInPlace(src, r[k], m[k], x, y);
      }
      if src.mask(x, y) {
        var p := Point(x, y);
        SlicePartition(src.width, src.height, hsl, hsr, vst, vsb, r, p);
        var k := CellOf(p, hsl, hsr, vst, vsb);
        assert Translate(m[k].mask, r[k].x, r[k].y)(x, y);
      }
    }
  }
}
