/**
 * `TrainsetGenerator` (TrainsetGenerator.h, TrainsetGenerator.cpp): the
 * synthesis of training samples around the true tags of an image, their
 * rescaling, and the loop that writes one batch per image descriptor.
 *
 * Everything random or numeric that the source computes in floating point
 * comes from a `Sampler`: the raw coordinate draws, the acceptance and angle
 * draws, the taginess the nearest-neighbour search yields for a point, and
 * the decimal printing of a double.
 */
module TrainsetGeneration {
  import opened Wrappers
  import opened Geometry
  import opened Strings
  import opened Tags
  import opened FileSystems
  import opened Images
  import opened TrainData
  import opened Shuffling
  import opened DataWriters
  import opened Slicing

  /** Defaults of the public fields declared in the header. */
  const SAMPLES_PER_TAG: nat := 32
  const WRONG_SAMPLES_PER_TAG: nat := 32
  const MAX_INTERSECTION: real := 0.5
  const DEFAULT_SCALE: real := 1.0

  /** The taginess from which a sample is rotated, when rotation is switched on. */
  const ROTATION_TAGINESS: real := 0.8

  /** The constructor arguments the generator keeps. */
  datatype Settings = Settings(sampleRate: real, scale: real, useRotation: bool, acceptanceRate: real)

  /**
   * The outside values one `process(desc, train_data)` call consumes. For point `i` of round
   * `r`: the raw draws behind the two uniform integer distributions, the uniform acceptance
   * draw and the angle draw. `taginess(centers, p)` is exp(-d / (2 * 28^2)) for the squared
   * distance d the approximate nearest-neighbour search reports from `p` to `centers`;
   * `show` prints a double as `operator<<` does.
   */
  datatype Sampler = Sampler(
    x: (nat, nat) -> nat,
    y: (nat, nat) -> nat,
    acceptance: (nat, nat) -> real,
    angle: (nat, nat) -> real,
    taginess: (seq<Point>, Point) -> real,
    show: real -> string)

  /** Why sampling one image stops: the image file is missing, a crop leaves the image,
      or the rounds the model allows ran out before the quota was met. */
  datatype ProcessError = ImageMissing(path: string) | CropFailed(crop: CropError) | OutOfRounds

  /** Why the loop over descriptors stops. */
  datatype GenerateError =
    | DivisionByZero
    | ProcessFailed(process: ProcessError)
    | WriteFailed(write: Hdf5Error)

  // ---------------------------------------------------------------- true tags and centres

  /** The boxes of the true tags, in their order. */
  function TagBoxes(tags: seq<Tag>): (boxes: seq<Rect>)
    ensures |boxes| <= |tags|
  {
    if tags == [] then []
    else
      var last := tags[|tags| - 1];
      TagBoxes(tags[..|tags| - 1]) + (if last.IsTrueTag() then [last.boundingBox] else [])
  }

  /** Collecting the boxes distributes over concatenation, so their order is the tags' order. */
  lemma {:induction false} TagBoxesAppend(a: seq<Tag>, b: seq<Tag>)
    ensures TagBoxes(a + b) == TagBoxes(a) + TagBoxes(b)
    decreases |b|
  {
    if b == [] {
      assert a + b == a;
    } else {
      var rest := b[..|b| - 1];
      assert (a + b)[..|a + b| - 1] == a + rest;
      TagBoxesAppend(a, rest);
    }
  }

  /** A single tag contributes its box exactly when it is a true tag. */
  lemma TagBoxesOfOne(t: Tag)
    ensures TagBoxes([t]) == if t.IsTrueTag() then [t.boundingBox] else []
  {
    assert [t][..0] == [];
  }

  /** Every box comes from a true tag, and every true tag contributes its box. */
  lemma {:induction false} TagBoxesAreTrueTags(tags: seq<Tag>)
    ensures forall b :: b in TagBoxes(tags) <==> exists t :: t in tags && t.IsTrueTag() && t.boundingBox == b
    ensures TagBoxes(tags) == [] <==> forall t :: t in tags ==> !t.IsTrueTag()
  {
    if tags != [] {
      var rest := tags[..|tags| - 1];
      var last := tags[|tags| - 1];
      TagBoxesAreTrueTags(rest);
      assert tags == rest + [last];
    }
  }

  /** `getAllTagBoxes`. */
  method GetAllTagBoxes(tags: seq<Tag>) returns (boxes: seq<Rect>)
    ensures boxes == TagBoxes(tags)
  {
    boxes := [];
    for i := 0 to |tags|
      invariant boxes == TagBoxes(tags[..i])
    {
      assert tags[..i + 1][..i] == tags[..i];
      if tags[i].IsTrueTag() {
        boxes := boxes + [tags[i].boundingBox];
      }
    }
    assert tags[..|tags|] == tags;
  }

  /** The centres of the boxes, as `x + width/2, y + height/2`. */
  method TagCenters(boxes: seq<Rect>) returns (centers: seq<Point>)
    ensures |centers| == |boxes|
    ensures forall i :: 0 <= i < |boxes| ==> centers[i] == boxes[i].Center()
  {
    centers := [];
    for i := 0 to |boxes|
      invariant |centers| == i
      invariant forall k :: 0 <= k < i ==> centers[k] == boxes[k].Center()
    {
      var box := boxes[i];
      centers := centers + [Point(box.x + CDiv(box.width, 2), box.y + CDiv(box.height, 2))];
    }
  }

  function Centers(boxes: seq<Rect>): (centers: seq<Point>)
    ensures |centers| == |boxes|
  {
    seq(|boxes|, i requires 0 <= i < |boxes| => boxes[i].Center())
  }

  /** A true tag's centre is also the centre of its own 64 x 64 box, when it is tag-sized. */
  lemma CentersOfTagSizedBoxes(boxes: seq<Rect>)
    ensures forall i :: 0 <= i < |boxes| && boxes[i].IsTagSized() ==>
      TagBoxForCenter(Centers(boxes)[i]) == boxes[i]
  {
    forall i | 0 <= i < |boxes| && boxes[i].IsTagSized()
      ensures TagBoxForCenter(Centers(boxes)[i]) == boxes[i]
    {
      TagBoxForCenterRoundTrip(boxes[i].Center(), boxes[i]);
    }
  }

  // ---------------------------------------------------------------- one sample

  /** `uniform_int_distribution<>(0, hi)`: a value in [0, hi], both ends included. */
  function DrawCoordinate(raw: nat, hi: nat): (c: nat)
    ensures c <= hi
  {
    raw % (hi + 1)
  }

  function PointAt(mat: Grid, o: Sampler, round: nat, i: nat): (p: Point)
    ensures 0 <= p.x <= mat.cols && 0 <= p.y <= mat.rows
  {
    Point(DrawCoordinate(o.x(round, i), mat.cols), DrawCoordinate(o.y(round, i), mat.rows))
  }

  predicate Accepts(s: Settings, taginess: real, draw: real) {
    taginess * taginess + draw >= 1.0 - s.acceptanceRate
  }

  predicate Rotates(s: Settings, taginess: real) {
    s.useRotation && taginess >= ROTATION_TAGINESS
  }

  /** The extra border of the crop: half a tag around a sample that is then rotated. */
  function Border(rotate: bool): nat {
    if rotate then TAG_WIDTH / 2 else 0
  }

  /** `<filename>_<x>_<y>_<taginess>`. */
  function Description(filename: string, c: Point, taginess: real, show: real -> string): (d: string)
    ensures |d| > |filename| + 1 && d[..|filename| + 1] == filename + "_"
  {
    var head := filename + "_";
    var d := head + (IntToString(c.x) + "_" + IntToString(c.y) + "_" + show(taginess));
    assert d[..|head|] == head;
    d
  }

  /** What every sample of an image satisfies: its centre lies in the closed image rectangle,
      it is a tag-sized patch cut from a region inside the image (wider by the rotation
      border), its angle is 0 unless it is rotated, and it is described by its origin. */
  predicate WellFormed(s: Settings, image: Image, o: Sampler, d: TrainDatum) {
    && 0 <= d.center.x <= image.mat.cols && 0 <= d.center.y <= image.mat.rows
    && d.mat.rows == TAG_HEIGHT && d.mat.cols == TAG_WIDTH
    && d.mat.roi == SubimageRoi(image.mat.cols, image.mat.rows, TagBoxForCenter(d.center), Border(Rotates(s, d.taginess)))
    && Fits(d.mat.roi, image.mat.cols, image.mat.rows)
    && (!Rotates(s, d.taginess) ==> d.rotationAngle == 0.0)
    && d.description == Description(image.filename, d.center, d.taginess, o.show)
  }

  /**
   * Point `i` of round `round`: nothing when the acceptance test rejects it, else the sample
   * cut around it, or the error of a crop that leaves the image.
   */
  function SampleAt(s: Settings, image: Image, centers: seq<Point>, o: Sampler, round: nat, i: nat)
    : (r: Result<Option<TrainDatum>, CropError>)
    ensures r.Ok? && r.value.Some? ==> WellFormed(s, image, o, r.value.value)
    ensures r.Ok? && r.value.Some? ==> r.value.value.center == PointAt(image.mat, o, round, i)
    ensures r.Ok? && r.value.Some? ==> Accepts(s, r.value.value.taginess, o.acceptance(round, i))
    ensures r.Ok? && r.value.None? <==>
      !Accepts(s, o.taginess(centers, PointAt(image.mat, o, round, i)), o.acceptance(round, i))
  {
    var c := PointAt(image.mat, o, round, i);
    var t := o.taginess(centers, c);
    if !Accepts(s, t, o.acceptance(round, i)) then Ok(None)
    else
      var rotate := Rotates(s, t);
      var roi :- Crop(image.mat.cols, image.mat.rows,
                      SubimageRoi(image.mat.cols, image.mat.rows, TagBoxForCenter(c), Border(rotate)));
      var angle := if rotate then o.angle(round, i) else 0.0;
      Ok(Some(TrainDatum(Patch(TAG_HEIGHT, TAG_WIDTH, roi), c, angle, t, Description(image.filename, c, t, o.show))))
  }

  function Samples(sample: Option<TrainDatum>): seq<TrainDatum> {
    if sample.Some? then [sample.value] else []
  }

  /** The samples of the first `k` points of a round, or the first crop error among them. */
  function RoundPrefix(s: Settings, image: Image, centers: seq<Point>, o: Sampler, round: nat, k: nat)
    : (r: Result<seq<TrainDatum>, CropError>)
    ensures r.Ok? ==> |r.value| <= k
    ensures r.Ok? ==> forall d :: d in r.value ==> WellFormed(s, image, o, d)
    decreases k
  {
    if k == 0 then Ok([])
    else
      var prefix :- RoundPrefix(s, image, centers, o, round, k - 1);
      var sample :- SampleAt(s, image, centers, o, round, k - 1);
      Ok(prefix + Samples(sample))
  }

  /** Once a point of the round fails, the whole round fails with that error. */
  lemma {:induction false} RoundPrefixFailureSticks(s: Settings, image: Image, centers: seq<Point>, o: Sampler,
                                                    round: nat, k: nat, n: nat)
    requires k <= n && RoundPrefix(s, image, centers, o, round, k).Err?
    ensures RoundPrefix(s, image, centers, o, round, n) == RoundPrefix(s, image, centers, o, round, k)
    decreases n - k
  {
    if k < n {
      RoundPrefixFailureSticks(s, image, centers, o, round, k, n - 1);
    }
  }

  function Quota(s: Settings, boxes: nat): real {
    s.sampleRate * boxes as real
  }

  /**
   * The rounds of the quota loop from round `round` on, with `acc` appended so far: a round
   * draws `points` points; the loop stops once at least the quota is appended. `fuel` bounds
   * the number of rounds left.
   */
  function Rounds(s: Settings, image: Image, centers: seq<Point>, points: nat, o: Sampler,
                  round: nat, fuel: nat, acc: seq<TrainDatum>): (r: Result<seq<TrainDatum>, ProcessError>)
    decreases fuel
  {
    if |acc| as real >= Quota(s, |centers|) then Ok(acc)
    else if fuel == 0 then Err(OutOfRounds)
    else match RoundPrefix(s, image, centers, o, round, points)
      case Err(e) => Err(CropFailed(e))
      case Ok(batch) => Rounds(s, image, centers, points, o, round + 1, fuel - 1, acc + batch)
  }

  /** The samples `process(desc, train_data)` appends, with at most `fuel` rounds. */
  function ProcessSpec(s: Settings, fs: FileSystem, desc: ImageDesc, o: Sampler, fuel: nat)
    : Result<seq<TrainDatum>, ProcessError>
  {
    match LoadImage(fs, desc)
    case Err(_) => Err(ImageMissing(desc.filename))
    case Ok(image) => Rounds(s, image, Centers(TagBoxes(desc.tags)), |desc.tags|, o, 0, fuel, [])
  }

  /** The loop keeps what was appended, stops only at the quota, and overshoots the quota by
      less than one round of points; every sample it adds is well formed. */
  lemma {:induction false} RoundsOutcome(s: Settings, image: Image, centers: seq<Point>, points: nat, o: Sampler,
                                         round: nat, fuel: nat, acc: seq<TrainDatum>)
    requires forall d :: d in acc ==> WellFormed(s, image, o, d)
    requires |acc| as real < Quota(s, |centers|) + points as real || |acc| == 0
    ensures var r := Rounds(s, image, centers, points, o, round, fuel, acc);
      r.Ok? ==>
        && acc <= r.value
        && |r.value| as real >= Quota(s, |centers|)
        && (|r.value| as real < Quota(s, |centers|) + points as real || r.value == acc)
        && forall d :: d in r.value ==> WellFormed(s, image, o, d)
    decreases fuel
  {
    if |acc| as real < Quota(s, |centers|) && fuel > 0 {
      var round1 := RoundPrefix(s, image, centers, o, round, points);
      if round1.Ok? {
        var next := acc + round1.value;
        assert |next| as real < Quota(s, |centers|) + points as real;
        RoundsOutcome(s, image, centers, points, o, round + 1, fuel - 1, next);
      }
    }
  }

  /** What `process` promises about the samples it appends. */
  lemma ProcessOutcome(s: Settings, fs: FileSystem, desc: ImageDesc, o: Sampler, fuel: nat)
    ensures var r := ProcessSpec(s, fs, desc, o, fuel);
      r.Ok? ==>
        var image := LoadImage(fs, desc).value;
        && fs.Exists(desc.filename)
        && |r.value| as real >= Quota(s, |TagBoxes(desc.tags)|)
        && (r.value == [] || |r.value| as real < Quota(s, |TagBoxes(desc.tags)|) + |desc.tags| as real)
        && forall d :: d in r.value ==> WellFormed(s, image, o, d)
    ensures !fs.Exists(desc.filename) ==> ProcessSpec(s, fs, desc, o, fuel) == Err(ImageMissing(desc.filename))
  {
    var loaded := LoadImage(fs, desc);
    if loaded.Ok? {
      RoundsOutcome(s, loaded.value, Centers(TagBoxes(desc.tags)), |desc.tags|, o, 0, fuel, []);
    }
  }

  /** With no true tag the quota is 0: nothing is appended and no round is drawn. */
  lemma NoTrueTagsNoSamples(s: Settings, fs: FileSystem, desc: ImageDesc, o: Sampler, fuel: nat)
    requires fs.Exists(desc.filename)
    requires forall t :: t in desc.tags ==> !t.IsTrueTag()
    ensures ProcessSpec(s, fs, desc, o, fuel) == Ok([])
  {
    TagBoxesAreTrueTags(desc.tags);
  }

  /** The rescaled copy of a batch: the resized pixels with centre, angle and taginess,
      and the default (empty) description. */
  function Rescaled(data: seq<TrainDatum>, scale: real, resize: (Patch, real) -> Patch): (r: seq<TrainDatum>)
    ensures |r| == |data|
  {
    seq(|data|, i requires 0 <= i < |data| =>
      NewTrainDatum(resize(data[i].mat, scale), data[i].center, data[i].rotationAngle, data[i].taginess))
  }

  /** Rescaling keeps every sample's place and metadata and drops its description. */
  lemma RescaledKeepsMetadata(data: seq<TrainDatum>, scale: real, resize: (Patch, real) -> Patch)
    ensures |Rescaled(data, scale, resize)| == |data|
    ensures forall i :: 0 <= i < |data| ==>
      var d := Rescaled(data, scale, resize)[i];
      && d.center == data[i].center && d.rotationAngle == data[i].rotationAngle
      && d.taginess == data[i].taginess && d.description == ""
      && d.mat == resize(data[i].mat, scale)
  {
    forall i | 0 <= i < |data|
      ensures Rescaled(data, scale, resize)[i]
        == NewTrainDatum(resize(data[i].mat, scale), data[i].center, data[i].rotationAngle, data[i].taginess)
    {
    }
  }

  /** The batch `postProcess` leaves: the input itself at scale 1, else its rescaled copy. */
  function PostProcessed(data: seq<TrainDatum>, scale: real, resize: (Patch, real) -> Patch): (r: seq<TrainDatum>)
    ensures |r| == |data|
    ensures scale == 1.0 ==> r == data
    ensures scale != 1.0 ==> forall i :: 0 <= i < |data| ==>
      r[i].center == data[i].center && r[i].taginess == data[i].taginess && r[i].description == ""
  {
    if scale == 1.0 then data
    else
      RescaledKeepsMetadata(data, scale, resize);
      Rescaled(data, scale, resize)
  }

  /** The batch written for one descriptor: its samples, post-processed. */
  function BatchFor(s: Settings, fs: FileSystem, desc: ImageDesc, o: Sampler, fuel: nat,
                    resize: (Patch, real) -> Patch): Result<seq<TrainDatum>, ProcessError>
  {
    match ProcessSpec(s, fs, desc, o, fuel)
    case Err(e) => Err(e)
    case Ok(data) => Ok(PostProcessed(data, s.scale, resize))
  }

  /** The outcome of each descriptor: the batch written for it, or why it stops the loop.
      Descriptor `j` draws from `samplers(j)`. */
  ghost function Outcomes(s: Settings, fs: FileSystem, descs: seq<ImageDesc>, samplers: nat -> Sampler, fuel: nat,
                          resize: (Patch, real) -> Patch): (r: seq<Result<seq<TrainDatum>, ProcessError>>)
    ensures |r| == |descs|
  {
    seq(|descs|, j requires 0 <= j < |descs| => BatchFor(s, fs, descs[j], samplers(j), fuel, resize))
  }

  /** `batches` are the batches of the descriptors from index `first` on, one each, in order. */
  ghost predicate Written(outcomes: seq<Result<seq<TrainDatum>, ProcessError>>, first: nat,
                          batches: seq<seq<TrainDatum>>)
  {
    && first + |batches| <= |outcomes|
    && forall k :: 0 <= k < |batches| ==> outcomes[first + k] == Ok(batches[k])
  }

  /** Writing the batch of the next descriptor extends the written batches. */
  lemma WrittenStep(outcomes: seq<Result<seq<TrainDatum>, ProcessError>>, first: nat,
                    batches: seq<seq<TrainDatum>>, batch: seq<TrainDatum>)
    requires Written(outcomes, first, batches)
    requires first + |batches| < |outcomes| && outcomes[first + |batches|] == Ok(batch)
    ensures Written(outcomes, first, batches + [batch])
  {
  }

  /** The batches of two adjacent ranges of descriptors are the batches of their union. */
  lemma WrittenConcat(outcomes: seq<Result<seq<TrainDatum>, ProcessError>>, first: nat,
                      a: seq<seq<TrainDatum>>, b: seq<seq<TrainDatum>>)
    requires Written(outcomes, first, a) && Written(outcomes, first + |a|, b)
    ensures Written(outcomes, first, a + b)
  {
  }

  /** The worker slices of `processParallel`: min(2 hc, n) workers of n / workers descriptors,
      the last one taking the rest. */
  function ParallelSlices(n: nat, hc: nat): (r: Result<seq<Slice>, GenerateError>)
    ensures r.Err? <==> n == 0 || hc == 0
    ensures r.Ok? ==> |r.value| == Workers(n, hc) && r.value == Slices(n, Workers(n, hc), n / Workers(n, hc))
  {
    var workers := Workers(n, hc);
    if workers == 0 then Err(DivisionByZero)
    else Ok(Slices(n, workers, n / workers))
  }

  /** `std::min(2 * hardware_concurrency, n)`. */
  function Workers(n: nat, hc: nat): (w: nat)
    ensures w <= n && w <= 2 * hc && (w == n || w == 2 * hc)
  {
    if 2 * hc < n then 2 * hc else n
  }

  /** With at least one worker and no more workers than descriptors, each worker gets at least
      one descriptor and the full shares fit. */
  lemma WorkersShare(n: nat, w: nat)
    requires 1 <= w <= n
    ensures n / w >= 1 && w * (n / w) <= n
  {
    assert n == w * (n / w) + n % w;
  }

  /** The worker slices tile the descriptors: each descriptor belongs to exactly one slice,
      and every worker has at least one descriptor. */
  lemma {:induction false} ParallelSlicesCover(n: nat, hc: nat)
    requires n > 0 && hc > 0
    ensures var r := ParallelSlices(n, hc);
      && r.Ok?
      && |r.value| == Workers(n, hc)
      && n / |r.value| >= 1
      && r.value[0].start == 0 && r.value[|r.value| - 1].end == n
      && (forall i :: 0 <= i < |r.value| - 1 ==> r.value[i].end == r.value[i + 1].start)
      && (forall i :: 0 <= i < |r.value| ==> r.value[i].start < r.value[i].end <= n)
  {
    var workers := Workers(n, hc);
    var per := n / workers;
    WorkersShare(n, workers);
    SlicesTile(n, workers, per);
    var r := Slices(n, workers, per);
    forall i | 0 <= i < workers
      ensures r[i].start < r[i].end
    {
      if i + 1 < workers {
        MulMonotone(i + 1, workers - 1, per);
        assert (i + 1) * per == i * per + per;
      } else {
        MulMonotone(i + 1, workers, per);
        assert (i + 1) * per == i * per + per;
      }
    }
  }

  // ---------------------------------------------------------------- the generator

  /** When the writer's log is `earlier + written` before and after, what it took in between
      is what was appended to `written`. */
  lemma HandedSince(earlier: seq<seq<TrainDatum>>, start: seq<seq<TrainDatum>>, written: seq<seq<TrainDatum>>)
    requires start <= written
    ensures earlier + written == (earlier + start) + written[|start|..]
  {
    assert written == start + written[|start|..];
  }

  /** The batches of the descriptors before a range, followed by the batches of the range. */
  lemma WrittenAfter(outcomes: seq<Result<seq<TrainDatum>, ProcessError>>, first: nat, start: seq<seq<TrainDatum>>,
                     before: seq<seq<TrainDatum>>, written: seq<seq<TrainDatum>>)
    requires start <= before <= written
    requires Written(outcomes, first, before[|start|..])
    requires Written(outcomes, first + (|before| - |start|), written[|before|..])
    ensures start <= written && Written(outcomes, first, written[|start|..])
  {
    assert written[|start|..] == before[|start|..] + written[|before|..];
    WrittenConcat(outcomes, first, before[|start|..], written[|before|..]);
  }

  /** A generator is none of the objects its writer may change. */
  lemma OutsideWriter(w: Writer, g: TrainsetGenerator)
    ensures g !in w.Footprint()
  {
  }

  class TrainsetGenerator {
    const writer: Writer
    const settings: Settings
    const samplesPerTag: nat
    const wrongSamplesPerTag: nat
    const maxIntersection: real
    /** `_n_done` and `_n_todo`, the progress counters. */
    var nDone: nat
    var nTodo: nat
    /** The batches the writer had taken before the generator was built. */
    ghost const earlier: seq<seq<TrainDatum>>
    /** The batches the generator has handed to the writer, in order. */
    ghost var written: seq<seq<TrainDatum>>

    /** The writer is valid, and what it has taken is what it had before and then exactly
        the batches the generator handed it. */
    ghost predicate Valid()
      reads this, writer.Footprint()
    {
      writer.Valid() && writer.Batches() == earlier + written
    }

    constructor(writer: Writer, sampleRate: real, scale: real, useRotation: bool, acceptanceRate: real)
      requires writer.Valid()
      ensures this.writer == writer
      ensures settings == Settings(sampleRate, scale, useRotation, acceptanceRate)
      ensures samplesPerTag == SAMPLES_PER_TAG && wrongSamplesPerTag == WRONG_SAMPLES_PER_TAG
      ensures maxIntersection == MAX_INTERSECTION
      ensures nDone == 0 && written == [] && earlier == writer.Batches()
      ensures Valid()
    {
      this.writer := writer;
      earlier := writer.Batches();
      written := [];
      settings := Settings(sampleRate, scale, useRotation, acceptanceRate);
      samplesPerTag := SAMPLES_PER_TAG;
      wrongSamplesPerTag := WRONG_SAMPLES_PER_TAG;
      maxIntersection := MAX_INTERSECTION;
      nDone := 0;
      nTodo := 0;
    }

    /** The default constructor: the null writer. */
    constructor WithNullWriter(sampleRate: real, scale: real, useRotation: bool, acceptanceRate: real)
      ensures writer.DevNullOut? && fresh(writer.Footprint()) && writer.Batches() == []
      ensures settings == Settings(sampleRate, scale, useRotation, acceptanceRate)
      ensures nDone == 0 && written == []
      ensures Valid()
    {
      var devNull := new DevNullWriter();
      writer := DevNullOut(devNull);
      earlier := [];
      written := [];
      settings := Settings(sampleRate, scale, useRotation, acceptanceRate);
      samplesPerTag := SAMPLES_PER_TAG;
      wrongSamplesPerTag := WRONG_SAMPLES_PER_TAG;
      maxIntersection := MAX_INTERSECTION;
      nDone := 0;
      nTodo := 0;
    }

    /** One point of a round, as the body of the inner loop computes it. */
    method SamplePoint(image: Image, centers: seq<Point>, o: Sampler, round: nat, i: nat)
      returns (r: Result<Option<TrainDatum>, CropError>)
      ensures r == SampleAt(settings, image, centers, o, round, i)
    {
      var center := Point(o.x(round, i) % (image.mat.cols + 1), o.y(round, i) % (image.mat.rows + 1));
      assert center == PointAt(image.mat, o, round, i);
      var tagness := o.taginess(centers, center);
      if tagness * tagness + o.acceptance(round, i) >= 1.0 - settings.acceptanceRate {
        var box := TagBoxForCenter(center);
        var angle := 0.0;
        var subimage;
        ghost var rotate := Rotates(settings, tagness);
        if settings.useRotation && tagness >= ROTATION_TAGINESS {
          angle := o.angle(round, i);
          subimage := GetSubimage(image.mat.cols, image.mat.rows, box, TAG_WIDTH / 2);
        } else {
          subimage := GetSubimage(image.mat.cols, image.mat.rows, box);
        }
        assert subimage == Crop(image.mat.cols, image.mat.rows,
                                SubimageRoi(image.mat.cols, image.mat.rows, box, Border(rotate)));
        if subimage.Err? {
          return Err(subimage.error);
        }
        var description := image.filename + "_" + IntToString(center.x) + "_" + IntToString(center.y)
                           + "_" + o.show(tagness);
        assert description == Description(image.filename, center, tagness, o.show);
        r := Ok(Some(TrainDatum(Patch(TAG_HEIGHT, TAG_WIDTH, subimage.value), center, angle, tagness, description)));
      } else {
        r := Ok(None);
      }
    }

    /** One round of the quota loop: `points` points are drawn and the accepted samples are
        appended to `data`. */
    method DrawRound(image: Image, centers: seq<Point>, points: nat, o: Sampler, round: nat, data: seq<TrainDatum>)
      returns (r: Result<seq<TrainDatum>, CropError>)
      ensures r.Ok? <==> RoundPrefix(settings, image, centers, o, round, points).Ok?
      ensures r.Ok? ==> r.value == data + RoundPrefix(settings, image, centers, o, round, points).value
      ensures r.Err? ==> r.error == RoundPrefix(settings, image, centers, o, round, points).error
    {
      var acc := data;
      var i := 0;
      while i < points
        invariant i <= points
        invariant RoundPrefix(settings, image, centers, o, round, i).Ok?
        invariant acc == data + RoundPrefix(settings, image, centers, o, round, i).value
      {
        var sample := SamplePoint(image, centers, o, round, i);
        if sample.Err? {
          RoundPrefixFailureSticks(settings, image, centers, o, round, i + 1, points);
          return Err(sample.error);
        }
        if sample.value.Some? {
          acc := acc + [sample.value.value];
        }
        i := i + 1;
      }
      r := Ok(acc);
    }

    /**
     * `process(desc, train_data)`: the samples are appended to `trainData`, round after round,
     * until at least `sample_rate` times the number of true tags were appended. `fuel` bounds
     * the number of rounds.
     */
    method Process(fs: FileSystem, desc: ImageDesc, o: Sampler, fuel: nat, trainData: seq<TrainDatum>)
      returns (r: Result<seq<TrainDatum>, ProcessError>)
      ensures r.Ok? <==> ProcessSpec(settings, fs, desc, o, fuel).Ok?
      ensures r.Ok? ==> r.value == trainData + ProcessSpec(settings, fs, desc, o, fuel).value
      ensures r.Err? ==> r.error == ProcessSpec(settings, fs, desc, o, fuel).error
    {
      var loaded := LoadImage(fs, desc);
      if loaded.Err? {
        return Err(ImageMissing(desc.filename));
      }
      var image := loaded.value;
      var boxes := GetAllTagBoxes(desc.tags);
      var centers := TagCenters(boxes);
      assert centers == Centers(boxes);
      ghost var spec := Rounds(settings, image, centers, |desc.tags|, o, 0, fuel, []);
      assert ProcessSpec(settings, fs, desc, o, fuel) == spec;
      var data := trainData;
      var startSize := |data|;
      ghost var got: seq<TrainDatum> := [];
      var round := 0;
      while (|data| - startSize) as real < settings.sampleRate * |boxes| as real
        invariant round <= fuel && data == trainData + got
        invariant Rounds(settings, image, centers, |desc.tags|, o, round, fuel - round, got) == spec
        decreases fuel - round
      {
        if round == fuel {
          return Err(OutOfRounds);
        }
        var next := DrawRound(image, centers, |desc.tags|, o, round, data);
        if next.Err? {
          return Err(CropFailed(next.error));
        }
        ghost var batch := RoundPrefix(settings, image, centers, o, round, |desc.tags|).value;
        assert next.value == trainData + (got + batch);
        got := got + batch;
        data := next.value;
        round := round + 1;
      }
      r := Ok(data);
    }

    /** `postProcess`: at a scale other than 1, every sample is replaced by its rescaled copy. */
    method PostProcess(data: seq<TrainDatum>, resize: (Patch, real) -> Patch) returns (r: seq<TrainDatum>)
      ensures r == PostProcessed(data, settings.scale, resize)
    {
      if settings.scale == 1.0 {
        return data;
      }
      r := data;
      for i := 0 to |r|
        invariant |r| == |data|
        invariant r[..i] == Rescaled(data, settings.scale, resize)[..i]
        invariant r[i..] == data[i..]
      {
        var datum := r[i];
        var scaled := NewTrainDatum(resize(datum.mat, settings.scale), datum.center, datum.rotationAngle, datum.taginess);
        r := r[i := scaled];
      }
    }

    /** The body of one iteration of the template loop: the samples of descriptor `j` are
        generated into an empty batch, post-processed and handed to the writer once. A
        descriptor that cannot be sampled leaves the writer untouched. */
    method GenerateAndWrite(fs: FileSystem, descs: seq<ImageDesc>, j: nat, samplers: nat -> Sampler, fuel: nat,
                            resize: (Patch, real) -> Patch, engine: Engine)
      returns (r: Result<seq<TrainDatum>, GenerateError>)
      requires j < |descs|
      requires writer.Valid()
      modifies writer.Footprint()
      ensures writer.Valid()
      ensures r.Ok? || r.error.WriteFailed? ==>
        && Outcomes(settings, fs, descs, samplers, fuel, resize)[j].Ok?
        && writer.Batches() == old(writer.Batches()) + [Outcomes(settings, fs, descs, samplers, fuel, resize)[j].value]
      ensures r.Ok? ==> Outcomes(settings, fs, descs, samplers, fuel, resize)[j] == Ok(r.value)
      ensures r.Err? ==> r.error.ProcessFailed? || r.error.WriteFailed?
      ensures r.Err? && r.error.ProcessFailed? ==>
        && Outcomes(settings, fs, descs, samplers, fuel, resize)[j] == Err(r.error.process)
        && unchanged(writer.Footprint())
      ensures r.Err? && r.error.WriteFailed? ==> writer.Hdf5Out?
    {
      ghost var spec := ProcessSpec(settings, fs, descs[j], samplers(j), fuel);
      assert Outcomes(settings, fs, descs, samplers, fuel, resize)[j]
        == BatchFor(settings, fs, descs[j], samplers(j), fuel, resize);
      var data := Process(fs, descs[j], samplers(j), fuel, []);
      if data.Err? {
        return Err(ProcessFailed(data.error));
      }
      assert [] + spec.value == spec.value;
      var batch := PostProcess(data.value, resize);
      var w := WriteTo(writer, batch, engine);
      if w.Err? {
        return Err(WriteFailed(w.error));
      }
      r := Ok(batch);
    }

    /** One iteration of the template loop: `GenerateAndWrite`, then `incrementDone` once the
        writer has taken the batch. A batch the writer rejects was handed over but is not
        counted as done. */
    method ProcessOne(fs: FileSystem, descs: seq<ImageDesc>, j: nat, samplers: nat -> Sampler, fuel: nat,
                      resize: (Patch, real) -> Patch, engine: Engine)
      returns (r: Result<seq<TrainDatum>, GenerateError>)
      requires j < |descs|
      requires Valid()
      modifies this, writer.Footprint()
      ensures Valid()
      ensures nDone == old(nDone) + (if r.Ok? then 1 else 0) && nTodo == old(nTodo)
      ensures r.Ok? || r.error.WriteFailed? ==>
        && Outcomes(settings, fs, descs, samplers, fuel, resize)[j].Ok?
        && written == old(written) + [Outcomes(settings, fs, descs, samplers, fuel, resize)[j].value]
      ensures r.Ok? ==> Outcomes(settings, fs, descs, samplers, fuel, resize)[j] == Ok(r.value)
      ensures r.Err? ==> r.error.ProcessFailed? || r.error.WriteFailed?
      ensures r.Err? && r.error.ProcessFailed? ==>
        && Outcomes(settings, fs, descs, samplers, fuel, resize)[j] == Err(r.error.process)
        && written == old(written)
      ensures r.Err? && r.error.WriteFailed? ==> writer.Hdf5Out?
    {
      ghost var outcome := Outcomes(settings, fs, descs, samplers, fuel, resize)[j];
      r := GenerateAndWrite(fs, descs, j, samplers, fuel, resize, engine);
      OutsideWriter(writer, this);
      if r.Ok? || r.error.WriteFailed? {
        written := written + [outcome.value];
      }
      if r.Ok? {
        nDone := nDone + 1;
      }
    }

    /**
     * The template `process(begin, end)` over the descriptors [begin, end): for each in order,
     * its samples are generated into an empty batch, post-processed and handed to the writer,
     * and the done counter goes up. Descriptor `j` draws from `samplers(j)`. An error ends the
     * loop; a batch the writer rejects has been handed over but is not counted as done. Every
     * batch handed over is one the writer takes (`Valid`).
     */
    method ProcessRange(fs: FileSystem, descs: seq<ImageDesc>, begin: nat, end: nat, samplers: nat -> Sampler,
                        fuel: nat, resize: (Patch, real) -> Patch, engine: Engine)
      returns (r: Result<(), GenerateError>)
      requires Valid()
      requires begin <= end <= |descs|
      modifies this, writer.Footprint()
      ensures Valid() && nTodo == old(nTodo)
      ensures old(written) <= written && |written| <= |old(written)| + (end - begin)
      ensures writer.Batches() == old(writer.Batches()) + written[|old(written)|..]
      ensures Written(Outcomes(settings, fs, descs, samplers, fuel, resize), begin, written[|old(written)|..])
      ensures nDone + (if r.Err? && r.error.WriteFailed? then 1 else 0) == old(nDone) + (|written| - |old(written)|)
      ensures r.Ok? ==> |written| == |old(written)| + (end - begin)
      ensures r.Err? ==> r.error.ProcessFailed? || r.error.WriteFailed?
      ensures r.Err? && r.error.ProcessFailed? ==>
        var j := begin + (|written| - |old(written)|);
        j < end && Outcomes(settings, fs, descs, samplers, fuel, resize)[j] == Err(r.error.process)
      ensures r.Err? && r.error.WriteFailed? ==> |written| > |old(written)| && writer.Hdf5Out?
    {
      ghost var start := written;
      ghost var outcomes := Outcomes(settings, fs, descs, samplers, fuel, resize);
      for j := begin to end
        invariant Valid()
        invariant start <= written && |written| - |start| == j - begin
        invariant nDone == old(nDone) + (j - begin) && nTodo == old(nTodo)
        invariant Written(outcomes, begin, written[|start|..])
      {
        ghost var before := written;
        var batch := ProcessOne(fs, descs, j, samplers, fuel, resize, engine);
        if batch.Ok? || batch.error.WriteFailed? {
          assert written[|before|..] == [outcomes[j].value];
        }
        WrittenAfter(outcomes, begin, start, before, written);
        if batch.Err? {
          HandedSince(earlier, start, written);
          return Err(batch.error);
        }
      }
      HandedSince(earlier, start, written);
      r := Ok(());
    }

    /**
     * `processParallel`: the descriptors are split into `Workers(n, hc)` contiguous slices and
     * each slice goes through `process(begin, end)`. Descriptor `j` draws from `samplers(j)`.
     */
    method ProcessParallel(fs: FileSystem, descs: seq<ImageDesc>, hc: nat, samplers: nat -> Sampler, fuel: nat,
                           resize: (Patch, real) -> Patch, engine: Engine)
      returns (r: Result<(), GenerateError>)
      requires Valid()
      modifies this, writer.Footprint()
      ensures Valid() && nTodo == |descs|
      ensures r == Err(DivisionByZero) <==> |descs| == 0 || hc == 0
      ensures old(written) <= written
      ensures writer.Batches() == old(writer.Batches()) + written[|old(written)|..]
      ensures Written(Outcomes(settings, fs, descs, samplers, fuel, resize), 0, written[|old(written)|..])
      ensures nDone + (if r.Err? && r.error.WriteFailed? then 1 else 0) == |written| - |old(written)|
      ensures r.Ok? ==> |written| == |old(written)| + |descs|
    {
      nTodo := |descs|;
      nDone := 0;
      var n := |descs|;
      var workers := if 2 * hc < n then 2 * hc else n;
      if workers == 0 {
        assert written[|written|..] == [];
        return Err(DivisionByZero);
      }
      var per := n / workers;
      WorkersShare(n, workers);
      // ASSERT(images_per_thread >= 1) holds: there are no more workers than descriptors.
      assert per >= 1;
      ParallelSlicesCover(n, hc);
      ghost var start := written;
      r := RunWorkers(fs, descs, Slices(n, workers, per), samplers, fuel, resize, engine);
      HandedSince(earlier, start, written);
    }

    /** The worker threads, one per slice; the model runs them one after the other, in slice
        order. The first error ends the run. */
    method RunWorkers(fs: FileSystem, descs: seq<ImageDesc>, slices: seq<Slice>, samplers: nat -> Sampler,
                      fuel: nat, resize: (Patch, real) -> Patch, engine: Engine)
      returns (r: Result<(), GenerateError>)
      requires Valid()
      requires |slices| >= 1 && slices[0].start == 0 && slices[|slices| - 1].end == |descs|
      requires forall i :: 0 <= i < |slices| - 1 ==> slices[i].end == slices[i + 1].start
      requires forall i :: 0 <= i < |slices| ==> slices[i].start <= slices[i].end <= |descs|
      modifies this, writer.Footprint()
      ensures Valid() && nTodo == old(nTodo)
      ensures old(written) <= written
      ensures Written(Outcomes(settings, fs, descs, samplers, fuel, resize), 0, written[|old(written)|..])
      ensures nDone + (if r.Err? && r.error.WriteFailed? then 1 else 0) == old(nDone) + (|written| - |old(written)|)
      ensures r.Ok? ==> |written| == |old(written)| + |descs|
      ensures r.Err? ==> r.error.ProcessFailed? || r.error.WriteFailed?
    {
      ghost var start := written;
      ghost var outcomes := Outcomes(settings, fs, descs, samplers, fuel, resize);
      var done := 0;
      for i := 0 to |slices|
        invariant Valid()
        invariant (i < |slices| ==> done == slices[i].start) && (i == |slices| ==> done == |descs|)
        invariant start <= written && |written| - |start| == done
        invariant nDone == old(nDone) + done && nTodo == old(nTodo)
        invariant Written(outcomes, 0, written[|start|..])
      {
        ghost var before := written;
        var part := ProcessRange(fs, descs, slices[i].start, slices[i].end, samplers, fuel, resize, engine);
        WrittenAfter(outcomes, 0, start, before, written);
        if part.Err? {
          return part;
        }
        done := slices[i].end;
      }
      r := Ok(());
    }
  }
}
