/**
 * The tagging session of the manual tagger (ManuallyTagger.h, ManuallyTagger.cpp):
 * an ordered list of image descriptors with a "done" flag each, the index of
 * the image on screen, and the progress file the session is saved to.
 *
 * The object changes its fields in place, so it is a class. The file system is
 * a value field that the saving methods replace; the Qt signals the object
 * emits are appended to a ghost log.
 */
module ManualTagging {
  import opened Wrappers
  import opened JsonValues
  import opened FileSystems
  import opened Images

  /** `ManuallyTagger::IMAGE_DESC_EXT`: the extension of a finished descriptor's side-file. */
  const IMAGE_DESC_EXT: string := "tagger.json"
  /** The extension of a proposal's side-file, written by the proposal generator. */
  const PROPOSAL_EXT: string := ".proposal.json"
  /** `ManuallyTagger::DEFAULT_SAVE_PATH`. */
  const DEFAULT_SAVE_PATH: string := "tagger_progress.json"
  /** One more than the largest `unsigned long`. */
  const U64: int := 0x1_0000_0000_0000_0000

  /** The signals of the class, in the order they are emitted. `progress` carries the
      fraction `done / total`, kept here as the pair. */
  datatype Signal =
    | LoadedImage(idx: nat, desc: ImageDesc, image: Image)
    | OutOfRange(idx: nat)
    | FirstImage
    | LastImage
    | Progress(done: nat, total: nat)

  /** Why a method of the session throws. */
  datatype TaggerError =
    | LoadFailed(load: LoadError)
    | BadJson(json: JsonError)
    | IndexOutOfRange(idx: nat)

  // ----- counting -----

  /** `std::count(flags, true)`. */
  function CountTrue(bs: seq<bool>): (n: nat)
    ensures n <= |bs|
  {
    if bs == [] then 0 else CountTrue(bs[..|bs| - 1]) + (if bs[|bs| - 1] then 1 else 0)
  }

  /** Setting one flag raises the count by one exactly when that flag was not yet set. */
  lemma {:induction false} CountTrueSet(bs: seq<bool>, i: nat)
    requires i < |bs|
    ensures CountTrue(bs[i := true]) == CountTrue(bs) + (if bs[i] then 0 else 1)
    decreases |bs|
  {
    var cs := bs[i := true];
    var n := |bs| - 1;
    assert cs[..n] == if i == n then bs[..n] else bs[..n][i := true];
    if i < n {
      CountTrueSet(bs[..n], i);
    }
  }

  lemma {:induction false} CountTrueNoneSet(n: nat)
    ensures CountTrue(seq(n, _ => false)) == 0
  {
    if n > 0 {
      assert seq(n, _ => false)[..n - 1] == seq(n - 1, _ => false);
      CountTrueNoneSet(n - 1);
    }
  }

  // ----- ordering: finished descriptors first -----

  /** `isDone(desc)`: the finished side-file of the descriptor exists. */
  predicate Tagged(fs: FileSystem, d: ImageDesc) {
    fs.Exists(d.SavePath())
  }

  /** The descriptors whose `Tagged` status is `tagged`, in their original order. */
  function Select(fs: FileSystem, ds: seq<ImageDesc>, tagged: bool): (r: seq<ImageDesc>)
    ensures |r| <= |ds|
    ensures forall k :: 0 <= k < |r| ==> Tagged(fs, r[k]) == tagged
  {
    if ds == [] then []
    else Select(fs, ds[..|ds| - 1], tagged) + (if Tagged(fs, ds[|ds| - 1]) == tagged then [ds[|ds| - 1]] else [])
  }

  lemma {:induction false} SelectSplits(fs: FileSystem, ds: seq<ImageDesc>)
    ensures multiset(Select(fs, ds, true)) + multiset(Select(fs, ds, false)) == multiset(ds)
    ensures |Select(fs, ds, true)| + |Select(fs, ds, false)| == |ds|
  {
    if ds != [] {
      var n := |ds| - 1;
      var front, last := ds[..n], ds[n];
      SelectSplits(fs, front);
      assert ds == front + [last];
      assert multiset(ds) == multiset(front) + multiset{last};
      if Tagged(fs, last) {
        assert Select(fs, ds, true) == Select(fs, front, true) + [last];
        assert Select(fs, ds, false) == Select(fs, front, false);
      } else {
        assert Select(fs, ds, true) == Select(fs, front, true);
        assert Select(fs, ds, false) == Select(fs, front, false) + [last];
      }
    }
  }

  /** The order `init` sorts the descriptors into. `std::sort` with the comparator
      `isDone(d1) > isDone(d2)` leaves the order among equally finished descriptors
      unspecified; this is the stable choice. */
  function DoneFirst(fs: FileSystem, ds: seq<ImageDesc>): seq<ImageDesc> {
    Select(fs, ds, true) + Select(fs, ds, false)
  }

  /** What the sort promises: a permutation in which no unfinished descriptor precedes a
      finished one. */
  lemma DoneFirstSorted(fs: FileSystem, ds: seq<ImageDesc>)
    ensures multiset(DoneFirst(fs, ds)) == multiset(ds)
    ensures |DoneFirst(fs, ds)| == |ds|
    ensures forall i, j :: 0 <= i < j < |DoneFirst(fs, ds)| && Tagged(fs, DoneFirst(fs, ds)[j]) ==>
      Tagged(fs, DoneFirst(fs, ds)[i])
  {
    SelectSplits(fs, ds);
    var a := Select(fs, ds, true);
    var b := Select(fs, ds, false);
    var r := DoneFirst(fs, ds);
    assert forall k :: |a| <= k < |r| ==> r[k] == b[k - |a|];
    assert forall k :: 0 <= k < |a| ==> r[k] == a[k];
  }

  /** The sort, one pass collecting the finished and one the unfinished descriptors. */
  method SortDoneFirst(fs: FileSystem, ds: seq<ImageDesc>) returns (r: seq<ImageDesc>)
    ensures r == DoneFirst(fs, ds)
  {
    var finished: seq<ImageDesc> := [];
    var open: seq<ImageDesc> := [];
    for i := 0 to |ds|
      invariant finished == Select(fs, ds[..i], true)
      invariant open == Select(fs, ds[..i], false)
    {
      assert ds[..i + 1][..i] == ds[..i];
      if Tagged(fs, ds[i]) {
        finished := finished + [ds[i]];
      } else {
        open := open + [ds[i]];
      }
    }
    assert ds[..|ds|] == ds;
    r := finished + open;
  }

  // ----- the steps of init -----

  /** The descriptors `fromPathsPtr` builds, the first failing path ending the list. */
  function DescsForPaths(fs: FileSystem, paths: seq<string>, codec: TagCodec): (r: Result<seq<ImageDesc>, LoadError>)
    ensures r.Ok? ==> |r.value| == |paths|
  {
    if paths == [] then Ok([])
    else
      var n := |paths| - 1;
      var front :- DescsForPaths(fs, paths[..n], codec);
      var d :- DescForPath(fs, paths[n], IMAGE_DESC_EXT, codec);
      Ok(front + [d])
  }

  /** `DescsForPaths` succeeds exactly when every path does, with the descriptor of each path,
      and otherwise fails with the error of the first failing path. */
  lemma {:induction false} DescsForPathsMeaning(fs: FileSystem, paths: seq<string>, codec: TagCodec)
    ensures var r := DescsForPaths(fs, paths, codec);
      (r.Ok? <==> forall i :: 0 <= i < |paths| ==> DescForPath(fs, paths[i], IMAGE_DESC_EXT, codec).Ok?) &&
      (r.Ok? ==> forall i :: 0 <= i < |paths| ==> r.value[i] == DescForPath(fs, paths[i], IMAGE_DESC_EXT, codec).value) &&
      (r.Err? ==> exists i :: 0 <= i < |paths| && DescForPath(fs, paths[i], IMAGE_DESC_EXT, codec) == Err(r.error) &&
                    forall k :: 0 <= k < i ==> DescForPath(fs, paths[k], IMAGE_DESC_EXT, codec).Ok?)
  {
    if paths != [] {
      var n := |paths| - 1;
      DescsForPathsMeaning(fs, paths[..n], codec);
      assert forall k :: 0 <= k < n ==> paths[..n][k] == paths[k];
    }
  }

  /** The first loop of `init`: every image file must exist ("Could not open file"), and every
      descriptor is switched to the finished extension. */
  function Prepared(fs: FileSystem, ds: seq<ImageDesc>): (r: Result<seq<ImageDesc>, LoadError>)
    ensures r.Ok? ==> |r.value| == |ds|
    ensures r.Err? ==> r.error.FileMissing? && !fs.Exists(r.error.path)
  {
    if ds == [] then Ok([])
    else
      var n := |ds| - 1;
      var front :- Prepared(fs, ds[..n]);
      if !fs.Exists(ds[n].filename) then Err(FileMissing(ds[n].filename))
      else Ok(front + [ds[n].SetSavePathExtension(IMAGE_DESC_EXT)])
  }

  /** `Prepared` succeeds exactly when every image file exists, and then only switches each
      descriptor's extension; a failure names one of the descriptors' files. */
  lemma {:induction false} PreparedMeaning(fs: FileSystem, ds: seq<ImageDesc>)
    ensures var r := Prepared(fs, ds);
      (r.Ok? <==> forall i :: 0 <= i < |ds| ==> fs.Exists(ds[i].filename)) &&
      (r.Ok? ==> forall i :: 0 <= i < |ds| ==> r.value[i] == ds[i].SetSavePathExtension(IMAGE_DESC_EXT)) &&
      (r.Err? ==> exists i :: 0 <= i < |ds| && ds[i].filename == r.error.path)
  {
    if ds != [] {
      var n := |ds| - 1;
      PreparedMeaning(fs, ds[..n]);
      assert forall k :: 0 <= k < n ==> ds[..n][k] == ds[k];
    }
  }

  /** The second loop of `init`, for one descriptor: a finished side-file wins, then a
      proposal side-file, else the descriptor stays; the extension ends as the finished one.
      The loaded descriptor keeps the file name recorded in its side-file. */
  function Resolve(fs: FileSystem, d: ImageDesc, codec: TagCodec): (r: Result<ImageDesc, JsonError>)
    ensures r.Ok? ==> r.value.saveExtension == IMAGE_DESC_EXT
    ensures Tagged(fs, d) ==> (r.Ok? <==> Load(fs, d.SavePath(), codec).Ok?)
    ensures Tagged(fs, d) && r.Ok? ==> r.value.tags == Load(fs, d.SavePath(), codec).value.tags
    ensures !Tagged(fs, d) && fs.Exists(d.filename + "." + PROPOSAL_EXT) ==>
      (r.Ok? <==> Load(fs, d.filename + "." + PROPOSAL_EXT, codec).Ok?) &&
      (r.Ok? ==> r.value.tags == Load(fs, d.filename + "." + PROPOSAL_EXT, codec).value.tags)
    ensures !Tagged(fs, d) && !fs.Exists(d.filename + "." + PROPOSAL_EXT) ==>
      r == Ok(d.SetSavePathExtension(IMAGE_DESC_EXT))
  {
    if fs.Exists(d.SavePath()) then
      var loaded :- Load(fs, d.SavePath(), codec);
      Ok(loaded.SetSavePathExtension(IMAGE_DESC_EXT))
    else
      var proposal := d.SetSavePathExtension(PROPOSAL_EXT);
      if fs.Exists(proposal.SavePath()) then
        var loaded :- Load(fs, proposal.SavePath(), codec);
        Ok(loaded.SetSavePathExtension(IMAGE_DESC_EXT))
      else Ok(proposal.SetSavePathExtension(IMAGE_DESC_EXT))
  }

  /** `Resolve` over the list, the first unreadable side-file ending it. */
  function ResolvedAll(fs: FileSystem, ds: seq<ImageDesc>, codec: TagCodec): (r: Result<seq<ImageDesc>, JsonError>)
    ensures r.Ok? ==> |r.value| == |ds|
  {
    if ds == [] then Ok([])
    else
      var n := |ds| - 1;
      var front :- ResolvedAll(fs, ds[..n], codec);
      var d :- Resolve(fs, ds[n], codec);
      Ok(front + [d])
  }

  /** `ResolvedAll` succeeds exactly when every descriptor resolves, with the resolved
      descriptors in order; each then saves to its finished side-file. */
  lemma {:induction false} ResolvedAllMeaning(fs: FileSystem, ds: seq<ImageDesc>, codec: TagCodec)
    ensures var r := ResolvedAll(fs, ds, codec);
      (r.Ok? <==> forall i :: 0 <= i < |ds| ==> Resolve(fs, ds[i], codec).Ok?) &&
      (r.Ok? ==> forall i :: 0 <= i < |ds| ==> r.value[i] == Resolve(fs, ds[i], codec).value) &&
      (r.Ok? ==> forall i :: 0 <= i < |ds| ==> r.value[i].saveExtension == IMAGE_DESC_EXT)
  {
    if ds != [] {
      var n := |ds| - 1;
      ResolvedAllMeaning(fs, ds[..n], codec);
      assert forall k :: 0 <= k < n ==> ds[..n][k] == ds[k];
    }
  }

  /** The file names of the descriptors, as `init` collects them into `_image_paths`. */
  function Filenames(ds: seq<ImageDesc>): seq<string> {
    seq(|ds|, i requires 0 <= i < |ds| => ds[i].filename)
  }

  /** The part of the session `init` rebuilds. */
  datatype Session = Session(descs: seq<ImageDesc>, imagePaths: seq<string>, done: seq<bool>, nDone: nat)

  /** A session as `init` leaves it: paths match descriptors, every descriptor saves to its
      finished side-file, there is one flag per descriptor, and the counter covers the flags. */
  ghost predicate Coherent(s: Session) {
    |s.descs| == |s.done| == |s.imagePaths| &&
    (forall i :: 0 <= i < |s.descs| ==> s.imagePaths[i] == s.descs[i].filename) &&
    (forall i :: 0 <= i < |s.descs| ==> s.descs[i].saveExtension == IMAGE_DESC_EXT) &&
    CountTrue(s.done) <= s.nDone
  }

  /** The descriptors `init` starts from: those of the recorded paths after a load, else the
      ones the object holds. */
  function StartDescs(fs: FileSystem, codec: TagCodec, fromSerialization: bool, paths: seq<string>, descs: seq<ImageDesc>)
    : Result<seq<ImageDesc>, TaggerError>
  {
    if !fromSerialization then Ok(descs)
    else match DescsForPaths(fs, paths, codec)
      case Err(e) => Err(LoadFailed(e))
      case Ok(ds) => Ok(ds)
  }

  /** `init`, as a function of the fields it reads. */
  function InitSpec(fs: FileSystem, codec: TagCodec, fromSerialization: bool, paths: seq<string>,
                    descs: seq<ImageDesc>, done: seq<bool>): Result<Session, TaggerError>
  {
    match StartDescs(fs, codec, fromSerialization, paths, descs)
    case Err(e) => Err(e)
    case Ok(start) =>
      match Prepared(fs, start)
      case Err(e) => Err(LoadFailed(e))
      case Ok(prepared) =>
        match ResolvedAll(fs, DoneFirst(fs, prepared), codec)
        case Err(e) => Err(BadJson(e))
        case Ok(resolved) =>
          if |resolved| != |done| then Ok(Session(resolved, Filenames(resolved), seq(|resolved|, _ => false), 0))
          else Ok(Session(resolved, Filenames(resolved), done, CountTrue(done)))
  }

  /** What `init` establishes: a coherent session with one entry per starting descriptor; the
      recorded flags survive exactly when their number matches, and the counter then counts
      them; otherwise everything starts unfinished. */
  lemma InitSpecSession(fs: FileSystem, codec: TagCodec, fromSerialization: bool, paths: seq<string>,
                        descs: seq<ImageDesc>, done: seq<bool>, s: Session)
    requires InitSpec(fs, codec, fromSerialization, paths, descs, done) == Ok(s)
    ensures Coherent(s)
    ensures s.nDone == CountTrue(s.done)
    ensures |s.descs| == |done| ==> s.done == done
    ensures |s.descs| != |done| ==> s.nDone == 0 && forall i :: 0 <= i < |s.done| ==> !s.done[i]
  {
    var start := StartDescs(fs, codec, fromSerialization, paths, descs).value;
    var prepared := Prepared(fs, start).value;
    DoneFirstSorted(fs, prepared);
    ResolvedAllMeaning(fs, DoneFirst(fs, prepared), codec);
    var resolved := ResolvedAll(fs, DoneFirst(fs, prepared), codec).value;
    CountTrueNoneSet(|resolved|);
  }

  /** `init` fails when an image file is missing ("Could not open file"). */
  lemma InitSpecMissingFile(fs: FileSystem, codec: TagCodec, descs: seq<ImageDesc>, done: seq<bool>, i: nat)
    requires i < |descs| && !fs.Exists(descs[i].filename)
    ensures InitSpec(fs, codec, false, [], descs, done).Err?
    ensures InitSpec(fs, codec, false, [], descs, done).error.LoadFailed?
  {
    PreparedMeaning(fs, descs);
  }

  /** A descriptor with no side-file of either kind is kept as it is. */
  predicate Untouched(fs: FileSystem, d: ImageDesc) {
    fs.Exists(d.filename) && !fs.Exists(d.filename + "." + IMAGE_DESC_EXT) && !fs.Exists(d.filename + "." + PROPOSAL_EXT)
  }

  /** A session whose images all exist and have no side-files always starts, with its
      descriptors in their original order. */
  lemma InitSpecStartsClean(fs: FileSystem, codec: TagCodec, descs: seq<ImageDesc>, done: seq<bool>)
    requires forall i :: 0 <= i < |descs| ==> Untouched(fs, descs[i])
    ensures InitSpec(fs, codec, false, [], descs, done).Ok?
    ensures var s := InitSpec(fs, codec, false, [], descs, done).value;
      |s.descs| == |descs| &&
      forall i :: 0 <= i < |descs| ==> s.descs[i] == descs[i].SetSavePathExtension(IMAGE_DESC_EXT)
  {
    PreparedMeaning(fs, descs);
    var prepared := Prepared(fs, descs).value;
    CleanStaysInPlace(fs, codec, descs, prepared);
  }

  /** Prepared clean descriptors are neither reordered by the sort nor changed by resolving. */
  lemma CleanStaysInPlace(fs: FileSystem, codec: TagCodec, descs: seq<ImageDesc>, prepared: seq<ImageDesc>)
    requires forall i :: 0 <= i < |descs| ==> Untouched(fs, descs[i])
    requires |prepared| == |descs|
    requires forall i :: 0 <= i < |descs| ==> prepared[i] == descs[i].SetSavePathExtension(IMAGE_DESC_EXT)
    ensures DoneFirst(fs, prepared) == prepared
    ensures ResolvedAll(fs, prepared, codec) == Ok(prepared)
  {
    assert forall i :: 0 <= i < |prepared| ==> !Tagged(fs, prepared[i]);
    SelectNone(fs, prepared);
    SelectAll(fs, prepared);
    assert DoneFirst(fs, prepared) == [] + prepared;
    forall i | 0 <= i < |prepared| ensures Resolve(fs, prepared[i], codec) == Ok(prepared[i]) {
      assert prepared[i].SetSavePathExtension(PROPOSAL_EXT).SavePath() == descs[i].filename + "." + PROPOSAL_EXT;
    }
    ResolvedAllMeaning(fs, prepared, codec);
    assert ResolvedAll(fs, prepared, codec).value == prepared;
  }

  lemma {:induction false} SelectNone(fs: FileSystem, ds: seq<ImageDesc>)
    requires forall i :: 0 <= i < |ds| ==> !Tagged(fs, ds[i])
    ensures Select(fs, ds, true) == []
  {
    if ds != [] {
      SelectNone(fs, ds[..|ds| - 1]);
    }
  }

  lemma {:induction false} SelectAll(fs: FileSystem, ds: seq<ImageDesc>)
    requires forall i :: 0 <= i < |ds| ==> !Tagged(fs, ds[i])
    ensures Select(fs, ds, false) == ds
  {
    if ds != [] {
      var n := |ds| - 1;
      SelectAll(fs, ds[..n]);
      assert ds == ds[..n] + [ds[n]];
    }
  }

  // ----- the progress file -----

  /** The fields `to_json` writes and `from_json` reads back. */
  datatype SavedState = SavedState(imageIdx: nat, done: seq<bool>, imagePaths: seq<string>)

  /** The document `to_json` builds. */
  function StateJson(s: SavedState): Json {
    JObj(map[
      "image_idx" := JInt(s.imageIdx),
      "done_tagging" := JArr(seq(|s.done|, i requires 0 <= i < |s.done| => JBool(s.done[i]))),
      "image_paths" := JArr(seq(|s.imagePaths|, i requires 0 <= i < |s.imagePaths| => JStr(s.imagePaths[i])))])
  }

  /** The elements a range-for visits: none for null, the items of an array, the value itself
      for a scalar. Iterating an object (its values in key order) is not part of this model. */
  function Elements(j: Json): Result<seq<Json>, JsonError> {
    match j
    case JNull => Ok([])
    case JArr(items) => Ok(items)
    case JObj(_) => Err(Malformed("object iterated"))
    case _ => Ok([j])
  }

  /** Conversion to `unsigned long`: integers wrap modulo 2^64, booleans give 0 or 1. */
  function AsUnsigned(j: Json): (r: Result<nat, JsonError>)
    ensures r.Ok? ==> r.value < U64
    ensures j.JInt? && 0 <= j.i < U64 ==> r == Ok(j.i)
  {
    match j
    case JInt(i) => Ok(i % U64)
    case JBool(b) => Ok(if b then 1 else 0)
    case _ => Err(Malformed("image_idx"))
  }

  function AsBools(js: seq<Json>): (r: Result<seq<bool>, JsonError>)
    ensures r.Ok? <==> forall i :: 0 <= i < |js| ==> js[i].JBool?
    ensures r.Ok? ==> |r.value| == |js| && forall i :: 0 <= i < |js| ==> r.value[i] == js[i].b
    ensures r.Err? ==> r.error == Malformed("done_tagging")
  {
    if js == [] then Ok([])
    else
      var n := |js| - 1;
      assert forall k :: 0 <= k < n ==> js[..n][k] == js[k];
      var front :- AsBools(js[..n]);
      if js[n].JBool? then Ok(front + [js[n].b]) else Err(Malformed("done_tagging"))
  }

  function AsStrings(js: seq<Json>): (r: Result<seq<string>, JsonError>)
    ensures r.Ok? <==> forall i :: 0 <= i < |js| ==> js[i].JStr?
    ensures r.Ok? ==> |r.value| == |js| && forall i :: 0 <= i < |js| ==> r.value[i] == js[i].s
    ensures r.Err? ==> r.error == Malformed("image_paths")
  {
    if js == [] then Ok([])
    else
      var n := |js| - 1;
      assert forall k :: 0 <= k < n ==> js[..n][k] == js[k];
      var front :- AsStrings(js[..n]);
      if js[n].JStr? then Ok(front + [js[n].s]) else Err(Malformed("image_paths"))
  }

  /** What `from_json` reads: the index, then the flags, then the paths; a document that is
      not an object or lacks one of the keys is malformed. */
  function ParseState(j: Json): (r: Result<SavedState, JsonError>)
    ensures r.Ok? ==> r.value.imageIdx < U64
    ensures !j.JObj? ==> r.Err?
  {
    if !j.JObj? || "image_idx" !in j.fields || "done_tagging" !in j.fields || "image_paths" !in j.fields then
      Err(Malformed("progress"))
    else
      var idx :- AsUnsigned(j.fields["image_idx"]);
      var flags :- Elements(j.fields["done_tagging"]);
      var done :- AsBools(flags);
      var items :- Elements(j.fields["image_paths"]);
      var paths :- AsStrings(items);
      Ok(SavedState(idx, done, paths))
  }

  /** `from_json(to_json())` restores the index, the flags and the paths. */
  lemma StateJsonRoundTrip(s: SavedState)
    requires s.imageIdx < U64
    ensures ParseState(StateJson(s)) == Ok(s)
  {
    var j := StateJson(s);
    var done := AsBools(j.fields["done_tagging"].items);
    assert done.Ok?;
    assert done.value == s.done;
    var paths := AsStrings(j.fields["image_paths"].items);
    assert paths.Ok?;
    assert paths.value == s.imagePaths;
  }

  /** `save()` for every descriptor of the list, in order. */
  function SaveDescs(fs: FileSystem, ds: seq<ImageDesc>, codec: TagCodec): (r: FileSystem)
    ensures forall i :: 0 <= i < |ds| ==> r.Exists(ds[i].SavePath())
    ensures forall p :: fs.Exists(p) ==> r.Exists(p)
  {
    if ds == [] then fs
    else
      var n := |ds| - 1;
      assert forall k :: 0 <= k < n ==> ds[..n][k] == ds[k];
      Save(SaveDescs(fs, ds[..n], codec), ds[n], codec)
  }

  // ----- the session object -----

  /** Every field except the image on screen, its index and the signal log. */
  datatype Store = Store(session: Session, savePath: string, fs: FileSystem, fromSerialization: bool)

  class ManuallyTagger {
    const codec: TagCodec
    var fs: FileSystem
    var descs: seq<ImageDesc>
    var done: seq<bool>
    var nDone: nat
    var loadedFromSerialization: bool
    var imagePaths: seq<string>
    var savePath: string
    var image: Option<Image>
    var desc: Option<ImageDesc>
    var imageIdx: nat
    ghost var signals: seq<Signal>

    ghost function CurrentSession(): Session
      reads this
    {
      Session(descs, imagePaths, done, nDone)
    }

    ghost function CurrentStore(): Store
      reads this
    {
      Store(CurrentSession(), savePath, fs, loadedFromSerialization)
    }

    ghost predicate Valid()
      reads this
    {
      Coherent(CurrentSession())
    }

    /** The member initialisers and the constructor's arguments, before `init` runs. */
    constructor(descriptions: seq<ImageDesc>, savePath: string, fs: FileSystem, codec: TagCodec)
      ensures this.codec == codec && this.fs == fs && this.savePath == savePath
      ensures descs == descriptions && done == [] && nDone == 0 && imagePaths == []
      ensures !loadedFromSerialization && imageIdx == 0 && image.None? && desc.None? && signals == []
    {
      this.codec := codec;
      this.fs := fs;
      this.savePath := savePath;
      descs := descriptions;
      done := [];
      nDone := 0;
      imagePaths := [];
      loadedFromSerialization := false;
      imageIdx := 0;
      image := None;
      desc := None;
      signals := [];
    }

    /** `ManuallyTagger(descriptions, save_path)`: the fields, then `init`. */
    static method Create(descriptions: seq<ImageDesc>, savePath: string, fs: FileSystem, codec: TagCodec)
      returns (r: Result<ManuallyTagger, TaggerError>)
      ensures var spec := InitSpec(fs, codec, false, [], descriptions, []);
        (r.Ok? <==> spec.Ok?) && (r.Err? ==> r.error == spec.error) &&
        (r.Ok? ==> fresh(r.value) && r.value.Valid() && r.value.CurrentSession() == spec.value &&
                   r.value.savePath == savePath && r.value.fs == fs && r.value.codec == codec &&
                   r.value.imageIdx == 0 && !r.value.loadedFromSerialization && r.value.signals == [])
    {
      var t := new ManuallyTagger(descriptions, savePath, fs, codec);
      var ok := t.Init();
      if ok.Err? {
        return Err(ok.error);
      }
      r := Ok(t);
    }

    /** `init`: see `InitSpec`. The file system, save path, index and image are untouched. */
    method Init() returns (r: Result<(), TaggerError>)
      modifies this
      ensures var spec := InitSpec(old(fs), codec, old(loadedFromSerialization), old(imagePaths), old(descs), old(done));
        (r.Ok? <==> spec.Ok?) && (r.Err? ==> r.error == spec.error) &&
        (r.Ok? ==> CurrentSession() == spec.value && Valid())
      ensures fs == old(fs) && savePath == old(savePath) && loadedFromSerialization == old(loadedFromSerialization)
      ensures imageIdx == old(imageIdx) && image == old(image) && desc == old(desc) && signals == old(signals)
    {
      var session := RunInit(fs, codec, loadedFromSerialization, imagePaths, descs, done);
      if session.Err? {
        return Err(session.error);
      }
      descs := session.value.descs;
      imagePaths := session.value.imagePaths;
      done := session.value.done;
      nDone := session.value.nDone;
      assert CurrentSession() == session.value;
      r := Ok(());
    }

    /** `save(path)`: the progress document written to `path`; reading it back gives the
        index, flags and paths. */
    method SaveTo(path: string)
      modifies this
      ensures fs == old(fs).WriteJson(path, StateJson(SavedState(imageIdx, done, imagePaths)))
      ensures imageIdx < U64 ==> ParseState(fs.json[path]) == Ok(SavedState(imageIdx, done, imagePaths))
      ensures CurrentSession() == old(CurrentSession()) && savePath == old(savePath) && loadedFromSerialization == old(loadedFromSerialization)
      ensures imageIdx == old(imageIdx) && image == old(image) && desc == old(desc) && signals == old(signals)
    {
      fs := fs.WriteJson(path, StateJson(SavedState(imageIdx, done, imagePaths)));
      if imageIdx < U64 {
        StateJsonRoundTrip(SavedState(imageIdx, done, imagePaths));
      }
    }

    /** `save()`: the progress file, then the descriptor on screen (`at` throws when the index
        is past the end, after the progress file is written). */
    method SaveCurrent() returns (r: Result<(), TaggerError>)
      modifies this
      ensures var progress := old(fs).WriteJson(savePath, StateJson(SavedState(imageIdx, done, imagePaths)));
        if imageIdx < |descs| then r.Ok? && fs == Images.Save(progress, descs[imageIdx], codec)
        else r == Err(IndexOutOfRange(imageIdx)) && fs == progress
      ensures CurrentSession() == old(CurrentSession()) && savePath == old(savePath) && loadedFromSerialization == old(loadedFromSerialization)
      ensures imageIdx == old(imageIdx) && image == old(image) && desc == old(desc) && signals == old(signals)
    {
      SaveTo(savePath);
      if imageIdx < |descs| {
        fs := Images.Save(fs, descs[imageIdx], codec);
        r := Ok(());
      } else {
        r := Err(IndexOutOfRange(imageIdx));
      }
    }

    /** `save(all_descs)`: with `all_descs`, the progress file and then every descriptor. */
    method Save(all: bool) returns (r: Result<(), TaggerError>)
      modifies this
      ensures var progress := old(fs).WriteJson(savePath, StateJson(SavedState(imageIdx, done, imagePaths)));
        if all then r.Ok? && fs == SaveDescs(progress, descs, codec)
        else if imageIdx < |descs| then r.Ok? && fs == Images.Save(progress, descs[imageIdx], codec)
        else r == Err(IndexOutOfRange(imageIdx)) && fs == progress
      ensures all ==> forall i :: 0 <= i < |descs| ==> IsDone(i)
      ensures CurrentSession() == old(CurrentSession()) && savePath == old(savePath) && loadedFromSerialization == old(loadedFromSerialization)
      ensures imageIdx == old(imageIdx) && image == old(image) && desc == old(desc) && signals == old(signals)
    {
      if !all {
        r := SaveCurrent();
        return;
      }
      SaveTo(savePath);
      var ds := descs;
      var out := fs;
      for i := 0 to |ds|
        invariant out == SaveDescs(fs, ds[..i], codec)
      {
        assert ds[..i + 1][..i] == ds[..i];
        out := Images.Save(out, ds[i], codec);
      }
      assert ds[..|ds|] == ds;
      fs := out;
      r := Ok(());
    }

    /** `setSavePath`. */
    method SetSavePath(path: string)
      modifies this
      ensures savePath == path && fs == old(fs) && CurrentSession() == old(CurrentSession())
      ensures loadedFromSerialization == old(loadedFromSerialization)
      ensures imageIdx == old(imageIdx) && image == old(image) && desc == old(desc) && signals == old(signals)
    {
      savePath := path;
    }

    /** `isDone(idx)`: the descriptor's finished side-file exists, or its flag is set. */
    predicate IsDone(idx: nat)
      reads this
      ensures IsDone(idx) ==> idx < |descs| || idx < |done|
    {
      (idx < |descs| && Tagged(fs, descs[idx])) || (idx < |done| && done[idx])
    }

    /** `to_json`. */
    function ToJson(): (j: Json)
      reads this
      ensures imageIdx < U64 ==> ParseState(j) == Ok(SavedState(imageIdx, done, imagePaths))
    {
      var s := SavedState(imageIdx, done, imagePaths);
      if s.imageIdx < U64 then StateJsonRoundTrip(s); StateJson(s) else StateJson(s)
    }

    /** The effect of `loadImage(idx)`: past the end only `outOfRange` is emitted; otherwise
        the index moves, and when the image file exists the image and descriptor are shown
        and `loadedImage`, then `firstImage` and `lastImage` where they apply, are emitted. */
    twostate predicate LoadOutcome(idx: nat, new r: Result<(), TaggerError>)
      reads this
    {
      CurrentStore() == old(CurrentStore()) &&
      if idx >= |descs| then
        r.Ok? && imageIdx == old(imageIdx) && image == old(image) && desc == old(desc) &&
        signals == old(signals) + [OutOfRange(idx)]
      else
        imageIdx == idx &&
        (r.Ok? <==> fs.Exists(descs[idx].filename)) &&
        (r.Ok? ==> desc == Some(descs[idx]) && image == Some(LoadImage(fs, descs[idx]).value) &&
                   signals == old(signals) + [LoadedImage(idx, descs[idx], image.value)] +
                     (if idx == 0 then [FirstImage] else []) +
                     (if idx + 1 == |descs| then [LastImage] else [])) &&
        (r.Err? ==> r.error == LoadFailed(FileMissing(descs[idx].filename)) &&
                    image == old(image) && desc == old(desc) && signals == old(signals))
    }

    /** `loadImage(idx)`. */
    method LoadImageAt(idx: nat) returns (r: Result<(), TaggerError>)
      modifies this
      ensures LoadOutcome(idx, r)
    {
      if idx >= |descs| {
        signals := signals + [OutOfRange(idx)];
        return Ok(());
      }
      imageIdx := idx;
      var loaded := LoadImage(fs, descs[imageIdx]);
      if loaded.Err? {
        return Err(LoadFailed(loaded.error));
      }
      image := Some(loaded.value);
      desc := Some(descs[imageIdx]);
      signals := signals + [LoadedImage(imageIdx, desc.value, image.value)];
      if imageIdx == 0 {
        signals := signals + [FirstImage];
      }
      if imageIdx + 1 == |descs| {
        signals := signals + [LastImage];
      }
      r := Ok(());
    }

    /** `loadNextImage`. */
    method LoadNextImage() returns (r: Result<(), TaggerError>)
      modifies this
      ensures LoadOutcome(old(imageIdx) + 1, r)
    {
      r := LoadImageAt(imageIdx + 1);
    }

    /** `loadLastImage`: nothing happens on the first image. */
    method LoadLastImage() returns (r: Result<(), TaggerError>)
      modifies this
      ensures old(imageIdx) == 0 ==> r.Ok? && unchanged(this)
      ensures old(imageIdx) > 0 ==> LoadOutcome(old(imageIdx) - 1, r)
    {
      if imageIdx == 0 {
        return Ok(());
      }
      r := LoadImageAt(imageIdx - 1);
    }

    /** `loadCurrentImage`. */
    method LoadCurrentImage() returns (r: Result<(), TaggerError>)
      modifies this
      ensures LoadOutcome(old(imageIdx), r)
    {
      r := LoadImageAt(imageIdx);
    }

    /** `doneTagging(idx)`: the descriptor is saved, then the whole session (`save()`, which
        records the flags as they were before this call), then the flag is set, the counter
        raised and the progress emitted. Each `at` throws past the end; what was written
        before stays written. The counter counts calls, so a second call for the same image
        counts it twice. */
    method DoneTagging(idx: nat) returns (r: Result<(), TaggerError>)
      requires Valid()
      modifies this
      ensures Valid()
      ensures descs == old(descs) && imagePaths == old(imagePaths) && savePath == old(savePath)
      ensures loadedFromSerialization == old(loadedFromSerialization)
      ensures imageIdx == old(imageIdx) && image == old(image) && desc == old(desc)
      ensures idx >= |descs| ==> r == Err(IndexOutOfRange(idx)) && unchanged(this)
      ensures idx < |descs| ==>
        var first := Images.Save(old(fs), descs[idx], codec);
        var progress := first.WriteJson(savePath, StateJson(SavedState(imageIdx, old(done), imagePaths)));
        if imageIdx >= |descs| then
          r == Err(IndexOutOfRange(imageIdx)) && fs == progress && done == old(done) && nDone == old(nDone) &&
          signals == old(signals)
        else
          r.Ok? && fs == Images.Save(progress, descs[imageIdx], codec) &&
          done == old(done)[idx := true] && nDone == old(nDone) + 1 &&
          CountTrue(done) == CountTrue(old(done)) + (if old(done)[idx] then 0 else 1) &&
          signals == old(signals) + [Progress(nDone, |descs|)] && IsDone(idx)
    {
      if idx >= |descs| {
        return Err(IndexOutOfRange(idx));
      }
      fs := Images.Save(fs, descs[idx], codec);
      var saved := SaveCurrent();
      if saved.Err? {
        return saved;
      }
      MarkDone(idx);
      r := Ok(());
    }

    /** The end of `doneTagging(idx)`: the flag is set, the counter raised and the progress
        emitted; the counter stays an upper bound of the flags set. */
    method MarkDone(idx: nat)
      requires Valid() && idx < |descs|
      modifies this
      ensures Valid()
      ensures descs == old(descs) && imagePaths == old(imagePaths) && savePath == old(savePath) && fs == old(fs)
      ensures loadedFromSerialization == old(loadedFromSerialization)
      ensures imageIdx == old(imageIdx) && image == old(image) && desc == old(desc)
      ensures done == old(done)[idx := true] && nDone == old(nDone) + 1
      ensures CountTrue(done) == CountTrue(old(done)) + (if old(done)[idx] then 0 else 1)
      ensures signals == old(signals) + [Progress(nDone, |descs|)]
    {
      CountTrueSet(done, idx);
      done := done[idx := true];
      nDone := nDone + 1;
      signals := signals + [Progress(nDone, |descs|)];
    }

    /** `doneTagging()`: for the image on screen. */
    method DoneTaggingCurrent() returns (r: Result<(), TaggerError>)
      requires Valid()
      modifies this
      ensures Valid()
      ensures old(imageIdx) < |old(descs)| ==> r.Ok? && done == old(done)[old(imageIdx) := true] && IsDone(imageIdx)
      ensures old(imageIdx) >= |old(descs)| ==> r == Err(IndexOutOfRange(old(imageIdx))) && unchanged(this)
    {
      r := DoneTagging(imageIdx);
    }

    /** `from_json`: a default session whose index, flags and paths are read from the document;
        its descriptors are only rebuilt by the `init` that `load` runs next. */
    static method FromJson(j: Json, fs: FileSystem, codec: TagCodec) returns (r: Result<ManuallyTagger, TaggerError>)
      ensures r.Ok? <==> ParseState(j).Ok?
      ensures r.Err? ==> r.error == BadJson(ParseState(j).error)
      ensures r.Ok? ==> (fresh(r.value) && r.value.fs == fs && r.value.codec == codec &&
        r.value.imageIdx == ParseState(j).value.imageIdx && r.value.done == ParseState(j).value.done &&
        r.value.imagePaths == ParseState(j).value.imagePaths && r.value.descs == [] && r.value.nDone == 0 &&
        !r.value.loadedFromSerialization && r.value.savePath == DEFAULT_SAVE_PATH)
    {
      var created := Create([], DEFAULT_SAVE_PATH, fs, codec);
      var t := created.value;
      var parsed := ReadState(j);
      if parsed.Err? {
        return Err(BadJson(parsed.error));
      }
      t.imageIdx := parsed.value.imageIdx;
      t.done := parsed.value.done;
      t.imagePaths := parsed.value.imagePaths;
      r := Ok(t);
    }

    /** `load(path)`: the progress file parsed, then `from_json`, then `init` from the recorded
        paths. The recorded flags are kept when there is one per path. */
    static method Load(fs: FileSystem, path: string, codec: TagCodec) returns (r: Result<ManuallyTagger, TaggerError>)
      ensures path !in fs.json ==> r == Err(BadJson(NotJson(path)))
      ensures path in fs.json && ParseState(fs.json[path]).Err? ==> r == Err(BadJson(ParseState(fs.json[path]).error))
      ensures path in fs.json && ParseState(fs.json[path]).Ok? ==>
        var saved := ParseState(fs.json[path]).value;
        var spec := InitSpec(fs, codec, true, saved.imagePaths, [], saved.done);
        (r.Ok? <==> spec.Ok?) && (r.Err? ==> r.error == spec.error) &&
        (r.Ok? ==> fresh(r.value) && r.value.Valid() && r.value.CurrentSession() == spec.value &&
                   r.value.imageIdx == saved.imageIdx && r.value.loadedFromSerialization &&
                   r.value.savePath == DEFAULT_SAVE_PATH && r.value.fs == fs)
    {
      if path !in fs.json {
        return Err(BadJson(NotJson(path)));
      }
      var t :- FromJson(fs.json[path], fs, codec);
      t.loadedFromSerialization := true;
      var ok := t.Init();
      if ok.Err? {
        return Err(ok.error);
      }
      r := Ok(t);
    }
  }

  // ----- the loops of init and from_json -----

  /** The steps of `init` on the fields it reads. */
  method RunInit(fs: FileSystem, codec: TagCodec, fromSerialization: bool, paths: seq<string>,
                 descs: seq<ImageDesc>, done: seq<bool>) returns (r: Result<Session, TaggerError>)
    ensures r == InitSpec(fs, codec, fromSerialization, paths, descs, done)
    ensures r.Ok? ==> Coherent(r.value)
  {
    var start := LoadStart(fs, codec, fromSerialization, paths, descs);
    if start.Err? {
      return Err(start.error);
    }
    var prepared := PrepareAll(fs, start.value);
    if prepared.Err? {
      return Err(LoadFailed(prepared.error));
    }
    var sorted := SortDoneFirst(fs, prepared.value);
    var resolved := ResolveAll(fs, sorted, codec);
    if resolved.Err? {
      return Err(BadJson(resolved.error));
    }
    var imagePaths := CollectFilenames(resolved.value);
    if |resolved.value| != |done| {
      r := Ok(Session(resolved.value, imagePaths, seq(|resolved.value|, _ => false), 0));
    } else {
      var n := Count(done);
      r := Ok(Session(resolved.value, imagePaths, done, n));
    }
    InitSpecSession(fs, codec, fromSerialization, paths, descs, done, r.value);
  }

  /** The descriptors `init` starts from; after a load they come from `fromPathsPtr`. */
  method LoadStart(fs: FileSystem, codec: TagCodec, fromSerialization: bool, paths: seq<string>, descs: seq<ImageDesc>)
    returns (r: Result<seq<ImageDesc>, TaggerError>)
    ensures r == StartDescs(fs, codec, fromSerialization, paths, descs)
  {
    if !fromSerialization {
      return Ok(descs);
    }
    var fromPaths := FromPaths(fs, paths, IMAGE_DESC_EXT, codec);
    ghost var expected := DescsForPaths(fs, paths, codec);
    DescsForPathsMeaning(fs, paths, codec);
    if fromPaths.Err? {
      assert expected.Err?;
      return Err(LoadFailed(fromPaths.error));
    }
    assert expected.Ok? && expected.value == fromPaths.value;
    r := Ok(fromPaths.value);
  }

  method PrepareAll(fs: FileSystem, ds: seq<ImageDesc>) returns (r: Result<seq<ImageDesc>, LoadError>)
    ensures r == Prepared(fs, ds)
  {
    var out: seq<ImageDesc> := [];
    for i := 0 to |ds|
      invariant Prepared(fs, ds[..i]) == Ok(out)
    {
      assert ds[..i + 1][..i] == ds[..i];
      if !fs.Exists(ds[i].filename) {
        r := Err(FileMissing(ds[i].filename));
        PreparedFailsOnPrefix(fs, ds, i + 1);
        return;
      }
      out := out + [ds[i].SetSavePathExtension(IMAGE_DESC_EXT)];
    }
    assert ds[..|ds|] == ds;
    r := Ok(out);
  }

  /** The first missing file of a prefix is the first missing file of the whole list. */
  lemma {:induction false} PreparedFailsOnPrefix(fs: FileSystem, ds: seq<ImageDesc>, n: nat)
    requires n <= |ds| && Prepared(fs, ds[..n]).Err?
    ensures Prepared(fs, ds) == Prepared(fs, ds[..n])
    decreases |ds| - n
  {
    if n < |ds| {
      assert ds[..n + 1][..n] == ds[..n];
      PreparedFailsOnPrefix(fs, ds, n + 1);
    } else {
      assert ds[..n] == ds;
    }
  }

  method ResolveAll(fs: FileSystem, ds: seq<ImageDesc>, codec: TagCodec) returns (r: Result<seq<ImageDesc>, JsonError>)
    ensures r == ResolvedAll(fs, ds, codec)
  {
    var out: seq<ImageDesc> := [];
    for i := 0 to |ds|
      invariant ResolvedAll(fs, ds[..i], codec) == Ok(out)
    {
      assert ds[..i + 1][..i] == ds[..i];
      var d := Resolve(fs, ds[i], codec);
      if d.Err? {
        r := Err(d.error);
        ResolvedFailsOnPrefix(fs, ds, i + 1, codec);
        return;
      }
      out := out + [d.value];
    }
    assert ds[..|ds|] == ds;
    r := Ok(out);
  }

  lemma {:induction false} ResolvedFailsOnPrefix(fs: FileSystem, ds: seq<ImageDesc>, n: nat, codec: TagCodec)
    requires n <= |ds| && ResolvedAll(fs, ds[..n], codec).Err?
    ensures ResolvedAll(fs, ds, codec) == ResolvedAll(fs, ds[..n], codec)
    decreases |ds| - n
  {
    if n < |ds| {
      assert ds[..n + 1][..n] == ds[..n];
      ResolvedFailsOnPrefix(fs, ds, n + 1, codec);
    } else {
      assert ds[..n] == ds;
    }
  }

  method CollectFilenames(ds: seq<ImageDesc>) returns (paths: seq<string>)
    ensures paths == Filenames(ds)
  {
    paths := [];
    for i := 0 to |ds|
      invariant paths == Filenames(ds[..i])
    {
      paths := paths + [ds[i].filename];
    }
    assert ds[..|ds|] == ds;
  }

  method Count(bs: seq<bool>) returns (n: nat)
    ensures n == CountTrue(bs)
  {
    n := 0;
    for i := 0 to |bs|
      invariant n == CountTrue(bs[..i])
    {
      assert bs[..i + 1][..i] == bs[..i];
      if bs[i] {
        n := n + 1;
      }
    }
    assert bs[..|bs|] == bs;
  }

  /** `from_json`'s reads, in order: the index, then each flag, then each path. */
  method ReadState(j: Json) returns (r: Result<SavedState, JsonError>)
    ensures r == ParseState(j)
  {
    if !j.JObj? || "image_idx" !in j.fields || "done_tagging" !in j.fields || "image_paths" !in j.fields {
      return Err(Malformed("progress"));
    }
    var idx :- AsUnsigned(j.fields["image_idx"]);
    var flags :- Elements(j.fields["done_tagging"]);
    var done: seq<bool> := [];
    for i := 0 to |flags|
      invariant AsBools(flags[..i]) == Ok(done)
    {
      assert flags[..i + 1][..i] == flags[..i];
      if !flags[i].JBool? {
        assert !AsBools(flags).Ok?;
        return Err(Malformed("done_tagging"));
      }
      done := done + [flags[i].b];
    }
    assert flags[..|flags|] == flags;
    var items :- Elements(j.fields["image_paths"]);
    var paths: seq<string> := [];
    for i := 0 to |items|
      invariant AsStrings(items[..i]) == Ok(paths)
    {
      assert items[..i + 1][..i] == items[..i];
      if !items[i].JStr? {
        assert !AsStrings(items).Ok?;
        return Err(Malformed("image_paths"));
      }
      paths := paths + [items[i].s];
    }
    assert items[..|items|] == items;
    r := Ok(SavedState(idx, done, paths));
  }
}
