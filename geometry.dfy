/**
 * Integer geometry of the tagger: the fixed 64x64 tag box, its centre, and the
 * clamping of a crop rectangle into an image (deeplocalizer_tagger.h and
 * deeplocalizer_tagger.cpp). Rectangles are `cv::Rect`: origin, width, height.
 */
module Geometry {
  import opened Wrappers

  const TAG_WIDTH: int := 64
  const TAG_HEIGHT: int := 64
  const MAX_TRANSLATION: int := TAG_WIDTH / 8
  const MIN_TRANSLATION: int := -MAX_TRANSLATION
  const MIN_AROUND_WRONG: int := TAG_WIDTH / 2
  const MAX_AROUND_WRONG: int := TAG_WIDTH / 2 + 80

  datatype Point = Point(x: int, y: int)
  datatype Size = Size(width: int, height: int)

  const TAG_CENTER: Point := Point(TAG_WIDTH / 2, TAG_HEIGHT / 2)
  const TAG_SIZE: Size := Size(TAG_WIDTH, TAG_HEIGHT)

  /** C++ integer division, which truncates toward zero. */
  function CDiv(a: int, b: int): (q: int)
    requires b > 0
    ensures a >= 0 ==> q == a / b
    ensures a < 0 ==> q == -((-a) / b)
  {
    if a >= 0 then a / b else -((-a) / b)
  }

  datatype Rect = Rect(x: int, y: int, width: int, height: int) {
    /** `x + width/2, y + height/2`, the centre every part of the source computes. */
    function Center(): Point {
      Point(x + CDiv(width, 2), y + CDiv(height, 2))
    }

    /** `cv::Rect::contains`: the box is half-open on its right and bottom edges. */
    predicate Contains(p: Point) {
      x <= p.x < x + width && y <= p.y < y + height
    }

    predicate IsTagSized() {
      width == TAG_WIDTH && height == TAG_HEIGHT
    }
  }

  /** The constants of deeplocalizer_tagger.h. */
  lemma ConstantValues()
    ensures TAG_WIDTH == 64 && TAG_HEIGHT == 64
    ensures TAG_CENTER == Point(32, 32) && TAG_SIZE == Size(64, 64)
    ensures MAX_TRANSLATION == 8 && MIN_TRANSLATION == -8
    ensures MIN_AROUND_WRONG == 32 && MAX_AROUND_WRONG == 112
  {
  }

  /** `tagBoxForCenter`: the tag-sized box whose top-left corner is half a tag away from `p`. */
  function TagBoxForCenter(p: Point): (r: Rect)
    ensures r.IsTagSized()
  {
    Rect(p.x - TAG_WIDTH / 2, p.y - TAG_WIDTH / 2, TAG_WIDTH, TAG_HEIGHT)
  }

  /** The box for a centre has that centre, and a tag-sized box is the box of its own centre. */
  lemma TagBoxForCenterRoundTrip(p: Point, r: Rect)
    ensures TagBoxForCenter(p).Center() == p
    ensures TagBoxForCenter(p) == Rect(p.x - 32, p.y - 32, 64, 64)
    ensures r.IsTagSized() ==> TagBoxForCenter(r.Center()) == r
    ensures TagBoxForCenter(p).Contains(p)
  {
  }

  /** Why a crop of `orginal(box)` can fail: the region leaves the image. */
  datatype CropError = RoiOutsideImage(roi: Rect)

  /** The region `cv::Mat::operator()(Rect)` accepts. */
  predicate Fits(r: Rect, cols: int, rows: int) {
    0 <= r.x && 0 <= r.width && r.x + r.width <= cols &&
    0 <= r.y && 0 <= r.height && r.y + r.height <= rows
  }

  /** The axis-wise adjustment of `getSubimage`: clamp a negative origin to 0, then pull back a
      box that reaches the far edge so that it ends one pixel before it. */
  function ClampOrigin(origin: int, extent: int, limit: int): (o: int)
    ensures origin >= 0 && origin + extent < limit ==> o == origin
    ensures origin < 0 && extent < limit ==> o == 0
    ensures (if origin < 0 then 0 else origin) + extent >= limit ==> o == limit - extent - 1
    ensures extent + 1 <= limit ==> 0 <= o && o + extent < limit
    ensures extent >= limit ==> o < 0
  {
    var o := if origin < 0 then 0 else origin;
    if o + extent >= limit then limit - extent - 1 else o
  }

  /** The rectangle `getSubimage` hands to the crop: expanded by the border on every side,
      then moved (never resized) into the image. */
  function SubimageRoi(cols: int, rows: int, box: Rect, border: nat): (r: Rect)
    ensures r.width == box.width + 2 * border && r.height == box.height + 2 * border
  {
    var w := box.width + 2 * border;
    var h := box.height + 2 * border;
    Rect(ClampOrigin(box.x - border, w, cols), ClampOrigin(box.y - border, h, rows), w, h)
  }

  function Crop(cols: int, rows: int, roi: Rect): Result<Rect, CropError> {
    if Fits(roi, cols, rows) then Ok(roi) else Err(RoiOutsideImage(roi))
  }

  /** What a clamped crop guarantees: it fits whenever the expanded box is narrower and lower
      than the image, it fails when the box is at least as wide or as high, and a box strictly
      inside the image is left alone when there is no border. */
  lemma SubimageRoiFits(cols: int, rows: int, box: Rect, border: nat)
    ensures var r := SubimageRoi(cols, rows, box, border);
      && (0 <= r.width && r.width + 1 <= cols && 0 <= r.height && r.height + 1 <= rows ==>
            Fits(r, cols, rows) && r.x + r.width < cols && r.y + r.height < rows)
      && (r.width >= cols || r.height >= rows ==> !Fits(r, cols, rows))
      && ((border == 0 && 0 <= box.x && box.x + box.width < cols &&
           0 <= box.y && box.y + box.height < rows) ==> r == box)
  {
  }

  /**
   * `getSubimage(orginal, box, additional_border = 0)`: the region of an image of `cols` x
   * `rows` pixels that is copied out, or the error of a region that leaves the image.
   * The box is adjusted field by field, as the source does.
   */
  method GetSubimage(cols: int, rows: int, box: Rect, border: nat := 0)
    returns (r: Result<Rect, CropError>)
    ensures r == Crop(cols, rows, SubimageRoi(cols, rows, box, border))
    ensures r.Ok? ==> Fits(r.value, cols, rows)
  {
    var b := box;
    b := b.(x := b.x - border);
    b := b.(y := b.y - border);
    b := b.(width := b.width + 2 * border);
    b := b.(height := b.height + 2 * border);
    if b.x < 0 { b := b.(x := 0); }
    if b.y < 0 { b := b.(y := 0); }
    if b.width + b.x >= cols { b := b.(x := cols - b.width - 1); }
    if b.height + b.y >= rows { b := b.(y := rows - b.height - 1); }
    r := Crop(cols, rows, b);
  }
}
