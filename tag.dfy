/**
 * A tag: a fixed-size box on an image, its classification and the optional
 * quality ellipse found by the localiser pipeline (Tag.h, Tag.cpp).
 * `Tag` is a value in the source (it is copied into vectors, lists and
 * optionals and passed by value), so it is a datatype here and its setters
 * are the datatype's update expressions: `setType(k)` is `t.(tagType := k)`,
 * `setId(i)` is `t.(id := i)`, `setBoundingBox(b)` is `t.(boundingBox := b)`.
 */
module Tags {
  import opened Wrappers
  import opened Geometry

  /** `enum TagType`; the enumerators are 0, 1, 2, 3 in declaration order. */
  datatype TagType = IsTag | NoTag | Exclude | BeeWithoutTag

  function EnumValue(k: TagType): (v: int)
    ensures 0 <= v < 4
  {
    match k
    case IsTag => 0
    case NoTag => 1
    case Exclude => 2
    case BeeWithoutTag => 3
  }

  /** `pipeline::Ellipse`, the fields the tagger reads: centre (relative to the box), axes,
      angle and vote. */
  datatype Ellipse = Ellipse(cen: Point, axis: Size, angle: int, vote: int)

  /** `Tag::IS_TAG_THRESHOLD`, the default of `guessIsTag`. */
  const IS_TAG_THRESHOLD: int := 1200

  /** `unsigned long` as used for tag ids. */
  type Id = bv64

  datatype Tag = Tag(id: Id, boundingBox: Rect, ellipse: Option<Ellipse>, tagType: TagType) {
    predicate IsTrueTag() { tagType == TagType.IsTag }
    predicate IsNoTag() { tagType == TagType.NoTag }
    predicate IsExclude() { tagType == TagType.Exclude }
    predicate IsBeeWithoutTag() { tagType == TagType.BeeWithoutTag }

    /** `Tag::center`: the centre of the bounding box. */
    function Center(): Point {
      boundingBox.Center()
    }
  }

  /** Exactly one of the four classification predicates holds of every tag. */
  lemma ExactlyOneKind(t: Tag)
    ensures t.IsTrueTag() || t.IsNoTag() || t.IsExclude() || t.IsBeeWithoutTag()
    ensures !(t.IsTrueTag() && t.IsNoTag()) && !(t.IsTrueTag() && t.IsExclude())
    ensures !(t.IsTrueTag() && t.IsBeeWithoutTag()) && !(t.IsNoTag() && t.IsExclude())
    ensures !(t.IsNoTag() && t.IsBeeWithoutTag()) && !(t.IsExclude() && t.IsBeeWithoutTag())
  {
  }

  /** `Tag()`: a default `cv::Rect` (all zero), no ellipse and the field default `IsTag`;
      the id is the random draw, supplied by the caller. */
  function DefaultTag(id: Id): (t: Tag)
    ensures t.IsTrueTag() && t.ellipse.None? && t.id == id
  {
    Tag(id, Rect(0, 0, 0, 0), None, TagType.IsTag)
  }

  /** `Tag(cv::Rect, optional<Ellipse>)`, and with `ell == None` also `Tag(cv::Rect)`. */
  function NewTag(id: Id, box: Rect, ell: Option<Ellipse> := None): (t: Tag)
    ensures t.IsTrueTag() && t.boundingBox == box && t.ellipse == ell && t.id == id
  {
    Tag(id, box, ell, TagType.IsTag)
  }

  /** `centerBoxAtEllipse`: the tag-sized box around the ellipse centre, which is relative to `bb`. */
  function CenterBoxAtEllipse(bb: Rect, ell: Ellipse): (r: Rect)
    ensures r.IsTagSized()
    ensures r.Center() == Point(bb.x + ell.cen.x, bb.y + ell.cen.y)
  {
    var center := Point(bb.x + ell.cen.x, bb.y + ell.cen.y);
    Rect(center.x - TAG_WIDTH / 2, center.y - TAG_HEIGHT / 2, TAG_WIDTH, TAG_HEIGHT)
  }

  /** `centerBox`: the tag-sized box with the same centre as `bb`. */
  function CenterBox(bb: Rect): (r: Rect)
    ensures r.IsTagSized()
    ensures r.Center() == bb.Center()
    ensures bb.IsTagSized() ==> r == bb
  {
    var center := bb.Center();
    Rect(center.x - TAG_WIDTH / 2, center.y - TAG_HEIGHT / 2, TAG_WIDTH, TAG_HEIGHT)
  }

  lemma CenterBoxIdempotent(bb: Rect)
    ensures CenterBox(CenterBox(bb)) == CenterBox(bb)
    ensures CenterBox(bb) == TagBoxForCenter(bb.Center())
  {
  }

  /** `operator<` of `pipeline::Ellipse` is not part of this model; the constructor below only
      relies on it being a strict weak order, as `<` on the ellipse's vote is. */
  ghost predicate StrictWeakOrder(less: (Ellipse, Ellipse) -> bool) {
    && (forall a :: !less(a, a))
    && (forall a, b, c :: less(a, b) && less(b, c) ==> less(a, c))
    && (forall a, b, c :: less(a, c) ==> less(a, b) || less(b, c))
  }

  /** `k` is the first candidate that no other candidate beats. */
  ghost predicate FirstGreatest(cands: seq<Ellipse>, k: nat, less: (Ellipse, Ellipse) -> bool) {
    && k < |cands|
    && (forall j :: 0 <= j < |cands| ==> !less(cands[k], cands[j]))
    && (forall j :: 0 <= j < k ==> less(cands[j], cands[k]))
  }

  /** The tag built around a chosen candidate ellipse. */
  function FromEllipse(id: Id, pipeBox: Rect, ell: Ellipse): (t: Tag)
    ensures t.IsTrueTag() && t.boundingBox.IsTagSized()
    ensures t.boundingBox.Center() == Point(pipeBox.x + ell.cen.x, pipeBox.y + ell.cen.y)
    ensures t.ellipse == Some(ell.(cen := TAG_CENTER))
  {
    Tag(id, CenterBoxAtEllipse(pipeBox, ell), Some(ell.(cen := TAG_CENTER)), TagType.IsTag)
  }

  /**
   * `Tag(const pipeline::Tag &)`: scan the candidates keeping the greatest ellipse (a later
   * one replaces the kept one only when it is strictly greater). With an ellipse the box is
   * centred on it and the stored ellipse centre becomes the box centre (32, 32); without one
   * the pipeline box is re-centred and the tag is a `NoTag`.
   */
  method FromPipelineTag(id: Id, pipeBox: Rect, cands: seq<Ellipse>, less: (Ellipse, Ellipse) -> bool)
    returns (t: Tag)
    requires StrictWeakOrder(less)
    ensures t.id == id && t.boundingBox.IsTagSized()
    ensures cands == [] ==> t == Tag(id, CenterBox(pipeBox), None, TagType.NoTag)
    ensures cands != [] ==>
      exists k: nat :: FirstGreatest(cands, k, less) && t == FromEllipse(id, pipeBox, cands[k])
  {
    var best: Option<Ellipse> := None;
    ghost var k: nat := 0;
    for i := 0 to |cands|
      invariant best.None? <==> i == 0
      invariant best.Some? ==> k < i && best.value == cands[k]
      invariant best.Some? ==> forall j :: 0 <= j < i ==> !less(cands[k], cands[j])
      invariant best.Some? ==> forall j :: 0 <= j < k ==> less(cands[j], cands[k])
    {
      if best.None? {
        best, k := Some(cands[i]), i;
      } else if less(best.value, cands[i]) {
        best, k := Some(cands[i]), i;
      }
    }
    if best.Some? {
      var ell := best.value;
      t := Tag(id, CenterBoxAtEllipse(pipeBox, ell), Some(ell), TagType.IsTag);
      t := t.(ellipse := Some(t.ellipse.value.(cen := TAG_CENTER)));
      assert FirstGreatest(cands, k, less);
    } else {
      t := Tag(id, CenterBox(pipeBox), None, TagType.NoTag);
    }
  }

  /** `guessIsTag(threshold)`: a tag iff it has an ellipse whose vote exceeds the threshold;
      every other tag, whatever its kind, becomes a `NoTag`. */
  function GuessIsTag(t: Tag, threshold: int := IS_TAG_THRESHOLD): (r: Tag)
    ensures r.IsTrueTag() <==> t.ellipse.Some? && t.ellipse.value.vote > threshold
    ensures r.IsTrueTag() || r.IsNoTag()
    ensures r.(tagType := t.tagType) == t
  {
    if t.ellipse.Some? && t.ellipse.value.vote > threshold then t.(tagType := TagType.IsTag)
    else t.(tagType := TagType.NoTag)
  }

  /** `toggleIsTag`: swaps `IsTag` and `NoTag`, leaves the other two kinds alone. */
  function ToggleIsTag(t: Tag): (r: Tag)
    ensures t.IsTrueTag() ==> r.IsNoTag()
    ensures t.IsNoTag() ==> r.IsTrueTag()
    ensures (t.IsExclude() || t.IsBeeWithoutTag()) ==> r == t
    ensures r.(tagType := t.tagType) == t
  {
    match t.tagType
    case IsTag => t.(tagType := TagType.NoTag)
    case NoTag => t.(tagType := TagType.IsTag)
    case _ => t
  }

  lemma ToggleIsTagInvolution(t: Tag)
    ensures ToggleIsTag(ToggleIsTag(t)) == t
  {
  }

  /** `Tag::operator==`. Two tags with ellipses compare box, kind and every ellipse field; otherwise
      they are equal exactly when neither has an ellipse. The id is never compared. */
  predicate TagEquals(a: Tag, b: Tag) {
    if a.ellipse.Some? && b.ellipse.Some? then
      var te, oe := a.ellipse.value, b.ellipse.value;
      a.boundingBox == b.boundingBox && a.tagType == b.tagType &&
      te.angle == oe.angle && te.vote == oe.vote && te.axis == oe.axis && te.cen == oe.cen
    else
      a.ellipse.Some? == b.ellipse.Some?
  }

  /** With ellipses on both sides `==` is equality up to the id; without, it ignores box and kind. */
  lemma TagEqualsMeaning(a: Tag, b: Tag)
    ensures a.ellipse.Some? && b.ellipse.Some? ==> (TagEquals(a, b) <==> a.(id := b.id) == b)
    ensures a.ellipse.None? && b.ellipse.None? ==> TagEquals(a, b)
    ensures a.ellipse.Some? != b.ellipse.Some? ==> !TagEquals(a, b)
  {
  }

  lemma TagEqualsIsEquivalence(a: Tag, b: Tag, c: Tag)
    ensures TagEquals(a, a)
    ensures TagEquals(a, b) ==> TagEquals(b, a)
    ensures TagEquals(a, b) && TagEquals(b, c) ==> TagEquals(a, c)
  {
  }
}
