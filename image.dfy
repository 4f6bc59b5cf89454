/**
 * Image descriptors and images (Image.h, Image.cpp): a file name, its ordered
 * tags and the extension of the side-file the descriptor is saved to.
 * `ImageDesc` is copied by value in the source, so it is a datatype; the
 * mutators `addTag`, `setTags` and `setSavePathExtension` return the updated
 * descriptor.
 */
module Images {
  import opened Wrappers
  import opened Tags
  import opened JsonValues
  import opened FileSystems

  /** The initial value of `_save_extension`. */
  const DEFAULT_SAVE_EXTENSION: string := ".desc"

  datatype ImageDesc = ImageDesc(filename: string, tags: seq<Tag>, saveExtension: string) {
    /** `savePath`: the file name, a dot, then the extension, which has its own leading dot
        by default. */
    function SavePath(): (p: string)
      ensures p == filename + "." + saveExtension
      ensures saveExtension == DEFAULT_SAVE_EXTENSION ==> p == filename + "..desc"
    {
      filename + "." + saveExtension
    }

    /** `addTag`: one tag more, at the end. */
    function AddTag(t: Tag): (d: ImageDesc)
      ensures d.tags == tags + [t] && |d.tags| == |tags| + 1
      ensures d.filename == filename && d.saveExtension == saveExtension
    {
      this.(tags := tags + [t])
    }

    /** `setTags`: the whole list replaced. */
    function SetTags(ts: seq<Tag>): (d: ImageDesc)
      ensures d.tags == ts && d.filename == filename && d.saveExtension == saveExtension
    {
      this.(tags := ts)
    }

    function SetSavePathExtension(ext: string): (d: ImageDesc)
      ensures d.saveExtension == ext && d.filename == filename && d.tags == tags
    {
      this.(saveExtension := ext)
    }
  }

  /** `ImageDesc(filename)` and `ImageDesc(filename, tags)`. */
  function NewImageDesc(filename: string, tags: seq<Tag> := []): (d: ImageDesc)
    ensures d.filename == filename && d.tags == tags && d.saveExtension == DEFAULT_SAVE_EXTENSION
  {
    ImageDesc(filename, tags, DEFAULT_SAVE_EXTENSION)
  }

  /** `std::vector<Tag>::operator==`: same length, element-wise `Tag::operator==`. */
  predicate TagsEqual(a: seq<Tag>, b: seq<Tag>) {
    |a| == |b| && forall i :: 0 <= i < |a| ==> TagEquals(a[i], b[i])
  }

  /** `ImageDesc::operator==`: same file name and equal tag lists; the save extension is
      not compared. */
  predicate DescEquals(a: ImageDesc, b: ImageDesc) {
    a.filename == b.filename && TagsEqual(a.tags, b.tags)
  }

  lemma DescEqualsIgnoresExtension(d: ImageDesc, ext: string)
    ensures DescEquals(d, d.SetSavePathExtension(ext))
    ensures forall t :: !DescEquals(d, d.AddTag(t))
  {
    forall i | 0 <= i < |d.tags| ensures TagEquals(d.tags[i], d.tags[i]) {
      TagEqualsIsEquivalence(d.tags[i], d.tags[i], d.tags[i]);
    }
  }

  // ----- JSON -----

  /** `Tag::to_json` / `Tag::from_json` are not part of this model; they are taken as a pair
      of functions that round-trip up to `Tag::operator==`, which is what the serialization
      test asserts of them. */
  datatype TagCodec = TagCodec(encode: Tag -> Json, decode: Json -> Option<Tag>)

  ghost predicate RoundTrips(codec: TagCodec) {
    forall t :: codec.decode(codec.encode(t)).Some? && TagEquals(codec.decode(codec.encode(t)).value, t)
  }

  function EncodeTags(tags: seq<Tag>, codec: TagCodec): (js: seq<Json>)
    ensures |js| == |tags|
    ensures forall i :: 0 <= i < |tags| ==> js[i] == codec.encode(tags[i])
  {
    if tags == [] then [] else EncodeTags(tags[..|tags| - 1], codec) + [codec.encode(tags[|tags| - 1])]
  }

  /** The document `ImageDesc::to_json` builds. */
  function DescJson(d: ImageDesc, codec: TagCodec): Json {
    JObj(map["filename" := JStr(d.filename), "tags" := JArr(EncodeTags(d.tags, codec))])
  }

  function DecodeTags(js: seq<Json>, codec: TagCodec): (r: Result<seq<Tag>, JsonError>)
    ensures r.Ok? ==> |r.value| == |js|
    ensures r.Ok? <==> forall i :: 0 <= i < |js| ==> codec.decode(js[i]).Some?
    ensures r.Ok? ==> forall i :: 0 <= i < |js| ==> r.value[i] == codec.decode(js[i]).value
    ensures r.Err? ==> r.error == Malformed("tag")
  {
    if js == [] then Ok([])
    else match DecodeTags(js[..|js| - 1], codec)
      case Err(e) => Err(e)
      case Ok(front) =>
        match codec.decode(js[|js| - 1])
        case None => Err(Malformed("tag"))
        case Some(t) => Ok(front + [t])
  }

  /** What `ImageDesc::from_json` reads: a "filename" string and a "tags" array; anything else
      is malformed. The result has the default save extension. */
  function DescFromJson(j: Json, codec: TagCodec): Result<ImageDesc, JsonError> {
    if !j.JObj? || "filename" !in j.fields || "tags" !in j.fields then Err(Malformed("descriptor"))
    else if !j.fields["filename"].JStr? || !j.fields["tags"].JArr? then Err(Malformed("descriptor"))
    else match DecodeTags(j.fields["tags"].items, codec)
      case Err(e) => Err(e)
      case Ok(tags) => Ok(NewImageDesc(j.fields["filename"].s, tags))
  }

  /** `from_json(to_json(d)) == d`, given that the tag codec round-trips. */
  lemma {:induction false} DescJsonRoundTrip(d: ImageDesc, codec: TagCodec)
    requires RoundTrips(codec)
    ensures DescFromJson(DescJson(d, codec), codec).Ok?
    ensures DescEquals(DescFromJson(DescJson(d, codec), codec).value, d)
    ensures DescFromJson(DescJson(d, codec), codec).value.saveExtension == DEFAULT_SAVE_EXTENSION
  {
    var js := EncodeTags(d.tags, codec);
    forall i | 0 <= i < |js| ensures codec.decode(js[i]).Some? {
      assert js[i] == codec.encode(d.tags[i]);
    }
    var r := DecodeTags(js, codec);
    assert r.Ok?;
    forall i | 0 <= i < |d.tags| ensures TagEquals(r.value[i], d.tags[i]) {
      assert r.value[i] == codec.decode(codec.encode(d.tags[i])).value;
    }
  }

  /** `ImageDesc::to_json`: the tags array is built one tag at a time. */
  method ToJson(d: ImageDesc, codec: TagCodec) returns (j: Json)
    ensures j == DescJson(d, codec)
  {
    var items: seq<Json> := [];
    for i := 0 to |d.tags|
      invariant items == EncodeTags(d.tags[..i], codec)
    {
      assert d.tags[..i + 1][..i] == d.tags[..i];
      items := items + [codec.encode(d.tags[i])];
    }
    assert d.tags[..|d.tags|] == d.tags;
    j := JObj(map["filename" := JStr(d.filename), "tags" := JArr(items)]);
  }

  /** `ImageDesc::from_json`: the tags are decoded one at a time, in order. */
  method FromJson(j: Json, codec: TagCodec) returns (r: Result<ImageDesc, JsonError>)
    ensures r == DescFromJson(j, codec)
  {
    if !j.JObj? || "filename" !in j.fields || "tags" !in j.fields {
      return Err(Malformed("descriptor"));
    }
    if !j.fields["filename"].JStr? || !j.fields["tags"].JArr? {
      return Err(Malformed("descriptor"));
    }
    var js := j.fields["tags"].items;
    var tags: seq<Tag> := [];
    for i := 0 to |js|
      invariant DecodeTags(js[..i], codec) == Ok(tags)
    {
      assert js[..i + 1][..i] == js[..i];
      var t := codec.decode(js[i]);
      if t.None? {
        assert DecodeTags(js[..i + 1], codec).Err?;
        DecodeTagsErrExtends(js, i + 1, codec);
        return Err(Malformed("tag"));
      }
      tags := tags + [t.value];
    }
    assert js[..|js|] == js;
    r := Ok(NewImageDesc(j.fields["filename"].s, tags));
  }

  /** A failure while decoding a prefix is a failure of the whole array. */
  lemma DecodeTagsErrExtends(js: seq<Json>, n: nat, codec: TagCodec)
    requires n <= |js| && DecodeTags(js[..n], codec).Err?
    ensures DecodeTags(js, codec).Err?
  {
    var i :| 0 <= i < n && codec.decode(js[..n][i]).None?;
    assert js[i] == js[..n][i];
  }

  /** `ImageDesc::load`: parse the file as JSON, then `from_json`. */
  function Load(fs: FileSystem, path: string, codec: TagCodec): Result<ImageDesc, JsonError> {
    if path !in fs.json then Err(NotJson(path)) else DescFromJson(fs.json[path], codec)
  }

  /** `ImageDesc::save()`: the descriptor's JSON document written to its save path. */
  function Save(fs: FileSystem, d: ImageDesc, codec: TagCodec): (r: FileSystem)
    ensures r.Exists(d.SavePath())
    ensures forall p :: fs.Exists(p) ==> r.Exists(p)
  {
    fs.WriteJson(d.SavePath(), DescJson(d, codec))
  }

  /** What `save` writes, `load` reads back: the same descriptor up to `operator==`. */
  lemma SaveThenLoad(fs: FileSystem, d: ImageDesc, codec: TagCodec)
    requires RoundTrips(codec)
    ensures Load(Save(fs, d, codec), d.SavePath(), codec).Ok?
    ensures DescEquals(Load(Save(fs, d, codec), d.SavePath(), codec).value, d)
  {
    DescJsonRoundTrip(d, codec);
  }

  /** Why `fromPaths` throws. */
  datatype LoadError = FileMissing(path: string) | BadSideFile(err: JsonError)

  /** The descriptor `fromPaths` builds for one existing path: a fresh one with the requested
      extension, or, when its side-file exists, the loaded one renamed to the path (whose
      extension is then the default again). */
  function DescForPath(fs: FileSystem, path: string, ext: string, codec: TagCodec): (r: Result<ImageDesc, LoadError>)
    ensures r.Ok? ==> r.value.filename == path
    ensures r.Err? <==> !fs.Exists(path) || (fs.Exists(path + "." + ext) && Load(fs, path + "." + ext, codec).Err?)
    ensures r.Ok? && !fs.Exists(path + "." + ext) ==> r.value == ImageDesc(path, [], ext)
    ensures r.Ok? && fs.Exists(path + "." + ext) ==> r.value.saveExtension == DEFAULT_SAVE_EXTENSION
  {
    if !fs.Exists(path) then Err(FileMissing(path))
    else
      var created := NewImageDesc(path).SetSavePathExtension(ext);
      if !fs.Exists(created.SavePath()) then Ok(created)
      else match Load(fs, created.SavePath(), codec)
        case Err(e) => Err(BadSideFile(e))
        case Ok(loaded) => Ok(loaded.(filename := path))
  }

  /** `ImageDesc::fromPaths`: one descriptor per path, in order; the first missing path or
      unreadable side-file throws. */
  method FromPaths(fs: FileSystem, paths: seq<string>, ext: string, codec: TagCodec)
    returns (r: Result<seq<ImageDesc>, LoadError>)
    ensures r.Ok? <==> forall i :: 0 <= i < |paths| ==> DescForPath(fs, paths[i], ext, codec).Ok?
    ensures r.Ok? ==> |r.value| == |paths|
    ensures r.Ok? ==> forall i :: 0 <= i < |paths| ==>
      r.value[i] == DescForPath(fs, paths[i], ext, codec).value && r.value[i].filename == paths[i]
    ensures r.Err? ==>
      exists i :: 0 <= i < |paths| && DescForPath(fs, paths[i], ext, codec) == Err(r.error) &&
        forall k :: 0 <= k < i ==> DescForPath(fs, paths[k], ext, codec).Ok?
  {
    var descs: seq<ImageDesc> := [];
    for i := 0 to |paths|
      invariant |descs| == i
      invariant forall k :: 0 <= k < i ==> DescForPath(fs, paths[k], ext, codec) == Ok(descs[k])
    {
      var path := paths[i];
      if !fs.Exists(path) {
        r := Err(FileMissing(path));
        assert DescForPath(fs, paths[i], ext, codec) == Err(r.error);
        return;
      }
      var desc := NewImageDesc(path);
      desc := desc.SetSavePathExtension(ext);
      if fs.Exists(desc.SavePath()) {
        var loaded := Load(fs, desc.SavePath(), codec);
        if loaded.Err? {
          r := Err(BadSideFile(loaded.error));
          assert DescForPath(fs, paths[i], ext, codec) == Err(r.error);
          return;
        }
        desc := loaded.value;
        desc := desc.(filename := path);
      }
      descs := descs + [desc];
    }
    r := Ok(descs);
  }

  // ----- Image -----

  /** `Image`: the file name and the decoded pixels. */
  datatype Image = Image(filename: string, mat: Grid)

  /** `Image(const ImageDesc &)`: the file must exist; an undecodable one gives an empty matrix. */
  function LoadImage(fs: FileSystem, desc: ImageDesc): (r: Result<Image, LoadError>)
    ensures r.Ok? <==> fs.Exists(desc.filename)
    ensures r.Ok? ==> r.value.filename == desc.filename
  {
    if !fs.Exists(desc.filename) then Err(FileMissing(desc.filename))
    else Ok(Image(desc.filename, fs.ImRead(desc.filename)))
  }

  /** `Image::operator==`. */
  predicate ImageEquals(a: Image, b: Image) {
    if a.filename != b.filename then false
    else if a.mat.Empty() && b.mat.Empty() then true
    else if a.mat.cols != b.mat.cols || a.mat.rows != b.mat.rows || a.mat.dims != b.mat.dims then false
    else a.mat.bytes == b.mat.bytes
  }

  /** Different names are never equal; two empty images of one name always are; otherwise shape
      and every byte must agree. It is an equivalence. */
  lemma ImageEqualsMeaning(a: Image, b: Image, c: Image)
    ensures a.filename != b.filename ==> !ImageEquals(a, b)
    ensures a.filename == b.filename && a.mat.Empty() && b.mat.Empty() ==> ImageEquals(a, b)
    ensures ImageEquals(a, b) && !(a.mat.Empty() && b.mat.Empty()) ==>
      a.mat.rows == b.mat.rows && a.mat.cols == b.mat.cols && a.mat.dims == b.mat.dims && a.mat.bytes == b.mat.bytes
    ensures ImageEquals(a, a)
    ensures ImageEquals(a, b) ==> ImageEquals(b, a)
    ensures ImageEquals(a, b) && ImageEquals(b, c) ==> ImageEquals(a, c)
  {
  }
}
