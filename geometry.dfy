/**
  Integer geometry: points, rectangles, window-shape regions, and pixmaps
  abstracted to their size and their opacity mask.  A region is given by its
  membership test, which models `QRegion` for the union, intersection and
  translation the theme engine performs.  The pixmap operations follow the
  Qt rules the engine depends on: `QPixmap::copy` clips the requested
  rectangle to the image and copies the whole image when the request is
  empty; `QPixmap::scaled` keeps a null pixmap null, gives a null pixmap for
  an empty target size, returns the pixmap itself when the size does not
  change and otherwise resamples.  Pixel resampling is a parameter
  (`Resampler`) whose output is cut to the requested size.
 */
module Geometry {

  datatype Point = Point(x: int, y: int)

  /** A rectangle given by its top-left corner and its size, as `QRect(x, y, w, h)`. */
  datatype Rect = Rect(x: int, y: int, w: int, h: int)

  datatype Size = Size(w: int, h: int)

  predicate IsEmpty(r: Rect) { r.w <= 0 || r.h <= 0 }

  /** Pixel `(x, y)` lies in `r`. */
  predicate Within(x: int, y: int, r: Rect) {
    r.x <= x < r.x + r.w && r.y <= y < r.y + r.h
  }

  predicate InRect(p: Point, r: Rect) {
    Within(p.x, p.y, r)
  }

  function Min(a: int, b: int): int { if a <= b then a else b }
  function Max(a: int, b: int): int { if a >= b then a else b }

  /** A window-shape region (`QRegion`), given by the test whether pixel `(x, y)` is in it. */
  type Region = (int, int) -> bool

  const EmptyRegion: Region := (x: int, y: int) => false

  /** The pixels of a rectangle, as `QRegion(QRect)`. */
  function RectRegion(r: Rect): Region {
    (x: int, y: int) => Within(x, y, r)
  }

  /** `QRegion::translate(dx, dy)`: pixel `(x, y)` of the result is pixel `(x - dx, y - dy)` of `g`. */
  function Translate(g: Region, dx: int, dy: int): Region {
    (x: int, y: int) => g(x - dx, y - dy)
  }

  lemma TranslateAt(g: Region, dx: int, dy: int, x: int, y: int)
    ensures Translate(g, dx, dy)(x, y) == g(x - dx, y - dy)
  {
  }

  /** Moving two regions with the same pixels by the same offset keeps them alike. */
  lemma TranslateSame(a: Region, b: Region, dx: int, dy: int)
    requires SameRegion(a, b)
    ensures SameRegion(Translate(a, dx, dy), Translate(b, dx, dy))
  {
    forall x, y ensures Translate(a, dx, dy)(x, y) == Translate(b, dx, dy)(x, y) {
      assert a(x - dx, y - dy) == b(x - dx, y - dy);
    }
  }

  /** `QRegion::operator|`. */
  function Union(a: Region, b: Region): Region {
    (x: int, y: int) => a(x, y) || b(x, y)
  }

  /** Uniting regions pairwise alike gives regions alike. */
  lemma UnionSame(a: Region, b: Region, c: Region, d: Region)
    requires SameRegion(a, c) && SameRegion(b, d)
    ensures SameRegion(Union(a, b), Union(c, d))
  {
    forall x, y ensures Union(a, b)(x, y) == Union(c, d)(x, y) {
      assert a(x, y) == c(x, y) && b(x, y) == d(x, y);
    }
  }

  /** `QRegion::operator&`. */
  function Intersect(a: Region, b: Region): Region {
    (x: int, y: int) => a(x, y) && b(x, y)
  }

  /** A region intersected with a rectangle, as `QRegion(rect) & g`. */
  function Clip(g: Region, r: Rect): Region {
    Intersect(RectRegion(r), g)
  }

  /** Two regions that contain the same pixels. */
  ghost predicate SameRegion(a: Region, b: Region) {
    forall x, y :: a(x, y) == b(x, y)
  }

  /** Every pixel of `a` is a pixel of `b`. */
  ghost predicate SubRegion(a: Region, b: Region) {
    forall x, y :: a(x, y) ==> b(x, y)
  }

  /** `QRect::intersected`. */
  function Intersected(a: Rect, b: Rect): (r: Rect)
    ensures forall p :: InRect(p, r) <==> InRect(p, a) && InRect(p, b)
  {
    var x0 := Max(a.x, b.x);
    var y0 := Max(a.y, b.y);
    var x1 := Min(a.x + a.w, b.x + b.w);
    var y1 := Min(a.y + a.h, b.y + b.h);
    Rect(x0, y0, x1 - x0, y1 - y0)
  }

  /** A pixmap abstracted to its size and the opacity mask (`QPixmap::mask()`) of its pixels. */
  datatype Pixmap = Pixmap(width: int, height: int, mask: Region) {
    predicate IsNull() { width == 0 && height == 0 }
    function Bounds(): Rect { Rect(0, 0, width, height) }
    function GetSize(): Size { Size(width, height) }
  }

  const Null: Pixmap := Pixmap(0, 0, EmptyRegion)

  /** A well-formed pixmap: null or of positive size, with the mask inside its bounds. */
  ghost predicate ValidPixmap(p: Pixmap) {
    (p.IsNull() || (p.width > 0 && p.height > 0))
    && forall x, y :: p.mask(x, y) ==> 0 <= x < p.width && 0 <= y < p.height
  }

  /** The part of an image seen through a rectangle, moved to the origin. */
  function Crop(src: Pixmap, c: Rect): Pixmap {
    Pixmap(c.w, c.h, Translate(Clip(src.mask, c), -c.x, -c.y))
  }

  /** `QPixmap::copy(x, y, w, h)`: a null image copies to null and an empty request
      copies the whole image (a new pixmap with the same size and pixels).  Any other request is intersected with the image:
      nothing in common gives a null pixmap, otherwise the copy has the size of
      the common part and is opaque where the source is. */
  function Copy(src: Pixmap, x: int, y: int, w: int, h: int): (p: Pixmap)
    requires ValidPixmap(src)
    ensures ValidPixmap(p)
    ensures src.IsNull() ==> p == Null
    ensures !src.IsNull() && IsEmpty(Rect(x, y, w, h)) ==> p.width == src.width && p.height == src.height
    ensures !src.IsNull() && !IsEmpty(Rect(x, y, w, h)) && IsEmpty(Intersected(src.Bounds(), Rect(x, y, w, h))) ==>
      p == Null
    ensures !src.IsNull() && !IsEmpty(Rect(x, y, w, h)) && !IsEmpty(Intersected(src.Bounds(), Rect(x, y, w, h))) ==>
      p.width == Intersected(src.Bounds(), Rect(x, y, w, h)).w
      && p.height == Intersected(src.Bounds(), Rect(x, y, w, h)).h
  {
    if src.IsNull() then Null
    else if IsEmpty(Rect(x, y, w, h)) then Crop(src, src.Bounds())
    else
      var c := Intersected(src.Bounds(), Rect(x, y, w, h));
      if IsEmpty(c) then Null else Crop(src, c)
  }

  /** `QPixmap::copy(QRect)`. */
  function CopyRect(src: Pixmap, r: Rect): (p: Pixmap)
    requires ValidPixmap(src)
    ensures ValidPixmap(p)
  {
    Copy(src, r.x, r.y, r.w, r.h)
  }

  /** A rectangle that is non-empty and lies inside a `w` by `h` image. */
  predicate Inside(c: Rect, w: int, h: int) {
    0 <= c.x && 0 < c.w && c.x + c.w <= w && 0 <= c.y && 0 < c.h && c.y + c.h <= h
  }

  /** Pixel `(x, y)` of a crop is pixel `(x + c.x, y + c.y)` of the source, inside the rectangle. */
  lemma CropAt(src: Pixmap, c: Rect, x: int, y: int)
    ensures Crop(src, c).mask(x, y) == (0 <= x < c.w && 0 <= y < c.h && src.mask(x + c.x, y + c.y))
  {
  }

  /** A rectangle inside the image is copied by cropping the image to it. */
  lemma CopyIsCrop(src: Pixmap, c: Rect)
    requires ValidPixmap(src) && !src.IsNull() && Inside(c, src.width, src.height)
    ensures CopyRect(src, c) == Crop(src, c)
  {
    assert Intersected(src.Bounds(), c) == c by {
      assert Max(0, c.x) == c.x && Max(0, c.y) == c.y;
      assert Min(src.width, c.x + c.w) == c.x + c.w && Min(src.height, c.y + c.h) == c.y + c.h;
    }
  }

  /** A rectangle inside the image is copied at exactly its size, and pixel `(x, y)` of
      the copy is opaque exactly when pixel `(x + c.x, y + c.y)` of the source is. */
  lemma CopyInside(src: Pixmap, c: Rect, x: int, y: int)
    requires ValidPixmap(src) && !src.IsNull() && Inside(c, src.width, src.height)
    ensures CopyRect(src, c).width == c.w && CopyRect(src, c).height == c.h
    ensures CopyRect(src, c).mask(x, y) == (0 <= x < c.w && 0 <= y < c.h && src.mask(x + c.x, y + c.y))
  {
    CopyIsCrop(src, c);
    CropAt(src, c, x, y);
  }

  /** The pixel resampler behind `QPixmap::scaled`: the opacity of a pixmap resampled
      to a given size.  It is supplied by the caller; its result is cut to the size. */
  type Resampler = (Pixmap, int, int) -> Region

  /** `QPixmap::scaled(w, h)`. */
  function Scaled(src: Pixmap, w: int, h: int, resample: Resampler): (p: Pixmap)
    requires ValidPixmap(src)
    ensures ValidPixmap(p)
    ensures src.IsNull() || w <= 0 || h <= 0 ==> p == Null
    ensures !src.IsNull() && w > 0 && h > 0 ==> p.width == w && p.height == h
    ensures !src.IsNull() && src.width == w && src.height == h ==> p == src
  {
    if src.IsNull() || w <= 0 || h <= 0 then Null
    else if w == src.width && h == src.height then src
    else Pixmap(w, h, Clip(resample(src, w, h), Rect(0, 0, w, h)))
  }

  /** Scaling to the size a pixmap already has changes nothing, so scaling twice
      to the same size is scaling once. */
  lemma ScaledIdempotent(src: Pixmap, w: int, h: int, resample: Resampler)
    requires ValidPixmap(src)
    ensures Scaled(Scaled(src, w, h, resample), w, h, resample) == Scaled(src, w, h, resample)
  {
  }
}
