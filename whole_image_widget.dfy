/**
 * The tag-list editing of the whole-image view (WholeImageWidget.h,
 * WholeImageWidget.cpp): the tags of the image on screen, the tags still
 * waiting for the ellipse search, and the ids the user deleted. A click on a
 * tag deletes it; a click elsewhere places a new one; a tag coming back from
 * the ellipse search is adopted unless its id was deleted meanwhile.
 *
 * The widget changes its lists in place, so it is a class. Painting, zooming
 * and scrolling are not modelled; a click arrives already mapped to image
 * coordinates, with the keyboard modifiers and the new tag's random id.
 */
module WholeImageEditing {
  import opened Wrappers
  import opened Geometry
  import opened Tags

  /** The two lists `eraseTag` is instantiated for: `*_tags` and `_newly_added_tags`. */
  datatype TagList = Current | NewlyAdded

  /** The keyboard modifiers held during a click. */
  datatype Modifiers = Modifiers(control: bool, alt: bool)

  // ----- erasing by id -----

  /** The erase-remove idiom of `eraseTag`: the tags whose id differs, in their order. */
  function EraseId(ts: seq<Tag>, id: Id): (r: seq<Tag>)
    ensures |r| <= |ts|
  {
    if ts == [] then []
    else EraseId(ts[..|ts| - 1], id) + (if ts[|ts| - 1].id == id then [] else [ts[|ts| - 1]])
  }

  /** Exactly the tags with another id remain. */
  lemma {:induction false} EraseIdMembership(ts: seq<Tag>, id: Id)
    ensures forall t :: t in EraseId(ts, id) <==> t in ts && t.id != id
  {
    if ts != [] {
      var n := |ts| - 1;
      EraseIdMembership(ts[..n], id);
      assert ts == ts[..n] + [ts[n]];
    }
  }

  /** Erasing distributes over concatenation, so the remaining tags keep their relative order:
      erasing from `a + b` keeps what erasing keeps of `a`, then of `b`. */
  lemma {:induction false} EraseIdConcat(a: seq<Tag>, b: seq<Tag>, id: Id)
    ensures EraseId(a + b, id) == EraseId(a, id) + EraseId(b, id)
    decreases |b|
  {
    if b == [] {
      assert a + b == a;
    } else {
      var n := |b| - 1;
      assert (a + b)[..|a + b| - 1] == a + b[..n];
      EraseIdConcat(a, b[..n], id);
    }
  }

  /** A single tag is dropped exactly when it carries the id. */
  lemma EraseIdSingle(t: Tag, id: Id)
    ensures EraseId([t], id) == if t.id == id then [] else [t]
  {
    assert [t][..0] == [];
  }

  /** A list without the id is left alone. */
  lemma {:induction false} EraseIdAbsent(ts: seq<Tag>, id: Id)
    requires forall t :: t in ts ==> t.id != id
    ensures EraseId(ts, id) == ts
  {
    if ts != [] {
      var n := |ts| - 1;
      assert forall t :: t in ts[..n] ==> t in ts;
      EraseIdAbsent(ts[..n], id);
      assert ts == ts[..n] + [ts[n]];
    }
  }

  /** Erasing the same id twice changes nothing the second time. */
  lemma EraseIdIdempotent(ts: seq<Tag>, id: Id)
    ensures EraseId(EraseId(ts, id), id) == EraseId(ts, id)
  {
    EraseIdMembership(ts, id);
    EraseIdAbsent(EraseId(ts, id), id);
  }

  /** `std::remove_if` followed by `erase`: one pass keeping the other tags. */
  method RemoveId(ts: seq<Tag>, id: Id) returns (kept: seq<Tag>)
    ensures kept == EraseId(ts, id)
  {
    kept := [];
    for i := 0 to |ts|
      invariant kept == EraseId(ts[..i], id)
    {
      assert ts[..i + 1][..i] == ts[..i];
      if ts[i].id != id {
        kept := kept + [ts[i]];
      }
    }
    assert ts[..|ts|] == ts;
  }

  // ----- finding a tag under a point -----

  /** The position of the first tag whose box contains `p` (half-open, as `cv::Rect::contains`). */
  function FirstContaining(ts: seq<Tag>, p: Point): (r: Option<nat>)
    ensures r.Some? ==> r.value < |ts| && ts[r.value].boundingBox.Contains(p)
    ensures r.Some? ==> forall k :: 0 <= k < r.value ==> !ts[k].boundingBox.Contains(p)
    ensures r.None? ==> forall k :: 0 <= k < |ts| ==> !ts[k].boundingBox.Contains(p)
  {
    if ts == [] then None
    else if ts[0].boundingBox.Contains(p) then Some(0)
    else match FirstContaining(ts[1..], p)
      case None => None
      case Some(k) => Some(k + 1)
  }

  /** The type check of `tagProcessed`: `isTag()` is a `bool` and is compared with the
      enumerator `NoTag`, whose value is 1, so the check fires for true tags and then sets
      the type they already have. */
  function ProcessedType(t: Tag): (r: Tag)
    ensures r == t
  {
    var isTag := if t.IsTrueTag() then 1 else 0;
    if isTag == EnumValue(TagType.NoTag) then t.(tagType := TagType.IsTag) else t
  }

  // ----- the widget -----

  class WholeImageWidget {
    /** The size of `_pixmap`, the image converted for display. */
    const width: int
    const height: int
    /** `*_tags`: the descriptor's tags, which the widget edits in place. */
    var tags: seq<Tag>
    /** `_newly_added_tags`. */
    var newlyAdded: seq<Tag>
    /** `_deleted_Ids`. */
    var deletedIds: set<Id>
    /** How often `changed()` was emitted. */
    ghost var changes: nat

    /** `WholeImageWidget(parent, mat, tags)`: the pixmap of `mat` and the descriptor's tags. */
    constructor(cols: int, rows: int, initial: seq<Tag>)
      ensures width == cols && height == rows && tags == initial
      ensures newlyAdded == [] && deletedIds == {} && changes == 0
    {
      width := cols;
      height := rows;
      tags := initial;
      newlyAdded := [];
      deletedIds := {};
      changes := 0;
    }

    /** `eraseTag(id, list)`: the id is recorded as deleted and every tag carrying it leaves
        that list; the other list is untouched. */
    method EraseTag(id: Id, list: TagList)
      modifies this
      ensures deletedIds == old(deletedIds) + {id}
      ensures list == Current ==> tags == EraseId(old(tags), id) && newlyAdded == old(newlyAdded)
      ensures list == NewlyAdded ==> newlyAdded == EraseId(old(newlyAdded), id) && tags == old(tags)
      ensures changes == old(changes)
    {
      deletedIds := deletedIds + {id};
      if list == Current {
        tags := RemoveId(tags, id);
      } else {
        newlyAdded := RemoveId(newlyAdded, id);
      }
    }

    /** `createTag(x, y)`: a tag-sized box centred on the point, when it fits in the pixmap;
        `id` is the random id the new tag draws. */
    function CreateTag(x: int, y: int, id: Id): (r: Option<Tag>)
      ensures r.None? <==> x < TAG_WIDTH / 2 || y < TAG_HEIGHT / 2 ||
                           x > width - TAG_WIDTH / 2 || y > height - TAG_HEIGHT / 2
      ensures r.Some? ==> r.value.id == id && r.value.IsTrueTag() && r.value.ellipse.None?
      ensures r.Some? ==> r.value.boundingBox.IsTagSized() && r.value.boundingBox.Center() == Point(x, y)
      ensures r.Some? ==> 0 <= r.value.boundingBox.x && r.value.boundingBox.x + r.value.boundingBox.width <= width
      ensures r.Some? ==> 0 <= r.value.boundingBox.y && r.value.boundingBox.y + r.value.boundingBox.height <= height
    {
      if x < TAG_WIDTH / 2 || y < TAG_HEIGHT / 2 || x > width - TAG_WIDTH / 2 || y > height - TAG_HEIGHT / 2 then None
      else Some(NewTag(id, Rect(x - TAG_WIDTH / 2, y - TAG_HEIGHT / 2, TAG_WIDTH, TAG_HEIGHT)))
    }

    /** `getTag(x, y)`: the first tag of `*_tags` under the point, else the first of
        `_newly_added_tags`, else none. */
    function GetTag(x: int, y: int): (r: Option<Tag>)
      reads this
      ensures r.Some? ==> r.value.boundingBox.Contains(Point(x, y)) && (r.value in tags || r.value in newlyAdded)
      ensures (exists k :: 0 <= k < |tags| && tags[k].boundingBox.Contains(Point(x, y))) ==>
        r.Some? && r.value in tags
      ensures r.None? <==>
        (forall k :: 0 <= k < |tags| ==> !tags[k].boundingBox.Contains(Point(x, y))) &&
        (forall k :: 0 <= k < |newlyAdded| ==> !newlyAdded[k].boundingBox.Contains(Point(x, y)))
    {
      match FirstContaining(tags, Point(x, y))
      case Some(k) => Some(tags[k])
      case None =>
        match FirstContaining(newlyAdded, Point(x, y))
        case Some(k) => Some(newlyAdded[k])
        case None => None
    }

    /** `tagProcessed(tag)`: a tag whose id was deleted is dropped; otherwise its id leaves the
        waiting list (and is recorded as deleted) and the tag joins the image's tags. */
    method TagProcessed(tag: Tag)
      modifies this
      ensures old(tag.id in deletedIds) ==> unchanged(this)
      ensures !old(tag.id in deletedIds) ==>
        tags == old(tags) + [tag] && newlyAdded == EraseId(old(newlyAdded), tag.id) &&
        deletedIds == old(deletedIds) + {tag.id} && changes == old(changes)
    {
      var t := ProcessedType(tag);
      if t.id in deletedIds {
        return;
      }
      EraseTag(t.id, NewlyAdded);
      tags := tags + [t];
    }

    /** The part of `mousePressEvent` that edits the lists: a click on a tag erases its id from
        both lists; a click elsewhere places a new tag (Exclude with Control, else
        BeeWithoutTag with Alt, else a true tag) if it fits, and otherwise does nothing. */
    method MousePress(x: int, y: int, modifiers: Modifiers, id: Id)
      modifies this
      ensures var hit := old(GetTag(x, y));
        hit.Some? ==>
          tags == EraseId(old(tags), hit.value.id) && newlyAdded == EraseId(old(newlyAdded), hit.value.id) &&
          deletedIds == old(deletedIds) + {hit.value.id} && changes == old(changes) + 1
      ensures var hit := old(GetTag(x, y));
        hit.None? && CreateTag(x, y, id).None? ==> unchanged(this)
      ensures var hit := old(GetTag(x, y));
        var kind := if modifiers.control then TagType.Exclude else if modifiers.alt then TagType.BeeWithoutTag else TagType.IsTag;
        hit.None? && CreateTag(x, y, id).Some? ==>
          tags == old(tags) + [CreateTag(x, y, id).value.(tagType := kind)] &&
          newlyAdded == old(newlyAdded) && deletedIds == old(deletedIds) && changes == old(changes) + 1
    {
      var hit := GetTag(x, y);
      if hit.Some? {
        EraseTag(hit.value.id, Current);
        EraseTag(hit.value.id, NewlyAdded);
      } else {
        var created := CreateTag(x, y, id);
        if created.None? {
          return;
        }
        var tag := created.value;
        if modifiers.control {
          tag := tag.(tagType := TagType.Exclude);
        } else if modifiers.alt {
          tag := tag.(tagType := TagType.BeeWithoutTag);
        }
        tags := tags + [tag];
      }
      changes := changes + 1;
    }
  }
}
