/**
 * The dataset writers (DataWriter.h, DataWriter.cpp). Each writer is an
 * object whose `write` call consumes one batch of samples. What a writer
 * puts into foreign storage (image files, LMDB records and transactions,
 * HDF5 files, text files) is kept as ghost logs on the writer.
 */
module DataWriters {
  import opened Wrappers
  import opened Strings
  import opened TrainData
  import opened Shuffling
  import opened LmdbKeys
  import opened Utils
  import opened Slicing

  // ----- ImageWriter -----

  /** `ImageWriter::filename`: the description with the ".jpeg" suffix. */
  function ImageFileName(d: TrainDatum): (f: string)
    ensures |f| == |d.description| + 5 && f[..|d.description|] == d.description
    ensures f[|d.description|..] == ".jpeg"
  {
    d.description + ".jpeg"
  }

  /** One line of the label file: a path and the sample's taginess (the text formatting of
      the number is not modelled). */
  datatype LabelLine = LabelLine(path: string, taginess: real)

  /** `ImageWriter::toFilenameLabel`. */
  function ToFilenameLabel(d: TrainDatum): (p: (string, real))
    ensures p.0 == ImageFileName(d) && p.1 == d.taginess
  {
    (ImageFileName(d), d.taginess)
  }

  /** Where `writeImages` puts a sample: the output directory joined with the last component
      of its file name. */
  function ImagePath(dir: string, d: TrainDatum): string {
    Join(dir, FileName(ImageFileName(d)))
  }

  /** The line `writeLabelFile` emits: the output directory joined with the whole file name. */
  function LabelLineFor(dir: string, d: TrainDatum): LabelLine {
    LabelLine(Join(dir, ToFilenameLabel(d).0), ToFilenameLabel(d).1)
  }

  datatype ImageFile = ImageFile(path: string, mat: Patch)

  function ImageFiles(dir: string, data: seq<TrainDatum>): (r: seq<ImageFile>)
    ensures |r| == |data|
    ensures forall i :: 0 <= i < |data| ==> r[i] == ImageFile(ImagePath(dir, data[i]), data[i].mat)
  {
    seq(|data|, i requires 0 <= i < |data| => ImageFile(ImagePath(dir, data[i]), data[i].mat))
  }

  function LabelLines(dir: string, data: seq<TrainDatum>): (r: seq<LabelLine>)
    ensures |r| == |data|
    ensures forall i :: 0 <= i < |data| ==> r[i] == LabelLineFor(dir, data[i])
  {
    seq(|data|, i requires 0 <= i < |data| => LabelLineFor(dir, data[i]))
  }

  lemma ImageFilesStep(dir: string, data: seq<TrainDatum>, i: nat)
    requires i < |data|
    ensures ImageFiles(dir, data[..i + 1]) == ImageFiles(dir, data[..i]) + [ImageFile(ImagePath(dir, data[i]), data[i].mat)]
  {
    assert data[..i + 1][i] == data[i];
  }

  lemma LabelLinesStep(dir: string, data: seq<TrainDatum>, i: nat)
    requires i < |data|
    ensures LabelLines(dir, data[..i + 1]) == LabelLines(dir, data[..i]) + [LabelLineFor(dir, data[i])]
  {
    assert data[..i + 1][i] == data[i];
  }

  /** When the description has no directory part, the label line names the image file that
      was written. */
  lemma LabelNamesImageFile(dir: string, d: TrainDatum)
    requires NoSeparator(d.description)
    ensures LabelLineFor(dir, d).path == ImagePath(dir, d)
    ensures LabelLineFor(dir, d).taginess == d.taginess
  {
    var f := ImageFileName(d);
    assert NoSeparator(f);
    FileNameOfSuffix([], f);
    assert [] + f == f;
  }

  /** When it has one, the two differ: the image is written under the last component only. */
  lemma LabelMissesImageFile()
    ensures var d := TrainDatum(Patch(0, 0, Geometry.Rect(0, 0, 0, 0)), Geometry.Point(0, 0), 0.0, 1.0, "a/b");
      && ImagePath("out", d) == "out/b.jpeg"
      && LabelLineFor("out", d).path == "out/a/b.jpeg"
  {
    var d := TrainDatum(Patch(0, 0, Geometry.Rect(0, 0, 0, 0)), Geometry.Point(0, 0), 0.0, 1.0, "a/b");
    assert ImageFileName(d) == "a/" + "b.jpeg";
    FileNameOfSuffix("a/", "b.jpeg");
    assert FileName(ImageFileName(d)) == "b.jpeg";
    assert Join("out", "b.jpeg") == "out/b.jpeg";
    assert Join("out", ImageFileName(d)) == "out/a/b.jpeg";
  }

  /** The label file `ImageWriter` opens: `<dir>/<last component of dir>` with its extension
      replaced by ".txt". */
  function LabelFilePath(dir: string): string {
    DropExtension(Join(dir, FileName(dir))) + ".txt"
  }

  class ImageWriter {
    const outputDir: string
    const labelFile: string
    /** The images written with `cv::imwrite`, in order. */
    ghost var images: seq<ImageFile>
    /** The lines written to the label file, in order. */
    ghost var labels: seq<LabelLine>
    /** The batches handed to `write`, in order: a record of the calls, which the C++
        object does not keep. */
    ghost var batches: seq<seq<TrainDatum>>

    constructor(outputDir: string)
      ensures this.outputDir == outputDir && labelFile == LabelFilePath(outputDir)
      ensures images == [] && labels == [] && batches == []
    {
      this.outputDir := outputDir;
      labelFile := LabelFilePath(outputDir);
      images := [];
      labels := [];
      batches := [];
    }

    /** `write`: all images of the batch first, then one label line per sample, both in
        batch order. */
    method Write(data: seq<TrainDatum>)
      modifies this
      ensures ImagesWrote(this, data)
    {
      batches := batches + [data];
      WriteImages(data);
      WriteLabelFile(data);
    }

    method WriteImages(data: seq<TrainDatum>)
      modifies this
      ensures images == old(images) + ImageFiles(outputDir, data)
      ensures labels == old(labels) && batches == old(batches)
    {
      for i := 0 to |data|
        invariant images == old(images) + ImageFiles(outputDir, data[..i])
        invariant labels == old(labels) && batches == old(batches)
      {
        var path := Join(outputDir, FileName(ImageFileName(data[i])));
        images := images + [ImageFile(path, data[i].mat)];
        ImageFilesStep(outputDir, data, i);
      }
      assert data[..|data|] == data;
    }

    method WriteLabelFile(data: seq<TrainDatum>)
      modifies this
      ensures labels == old(labels) + LabelLines(outputDir, data)
      ensures images == old(images) && batches == old(batches)
    {
      for i := 0 to |data|
        invariant labels == old(labels) + LabelLines(outputDir, data[..i])
        invariant images == old(images) && batches == old(batches)
      {
        var pair := ToFilenameLabel(data[i]);
        labels := labels + [LabelLine(Join(outputDir, pair.0), pair.1)];
        LabelLinesStep(outputDir, data, i);
      }
      assert data[..|data|] == data;
    }
  }

  /** What the image writer's `write` does to it. */
  twostate predicate ImagesWrote(i: ImageWriter, data: seq<TrainDatum>)
    reads i
  {
    && i.batches == old(i.batches) + [data]
    && i.images == old(i.images) + ImageFiles(i.outputDir, data)
    && i.labels == old(i.labels) + LabelLines(i.outputDir, data)
  }

  // ----- LMDBWriter -----

  /** Records are committed in transactions of this many puts. */
  const TXN_SIZE: nat := 1024

  const U64_MODULUS: nat := 0x1_0000_0000_0000_0000

  /** The `unsigned long` value of a counter: it wraps at 2^64. */
  function U64(n: nat): bv64 {
    (n % U64_MODULUS) as bv64
  }

  /** One `mdb_put`: the sample stored under the id `id`, whose key is `Key()`. */
  datatype Record = Record(id: nat, datum: TrainDatum) {
    /** The key bytes: the id's 64-bit value, byte-swapped. */
    function Key(): bv64 {
      Swap(U64(id))
    }
  }

  /** The records one `write` puts: position i stores the sample at position i of the
      shuffled order under the byte-swapped id `id0 + i`. */
  function Puts(id0: nat, data: seq<TrainDatum>, engine: Engine): (r: seq<Record>)
    ensures |r| == |data|
  {
    var order := Shuffled(|data|, engine);
    ShuffledInRange(|data|, engine);
    seq(|data|, i requires 0 <= i < |data| => Record(id0 + i, data[order[i]]))
  }

  /** The commits made inside the loop before position `i`, each recorded as the number of
      records put so far in total (`base` of them before this write). */
  function CommitsBefore(base: nat, i: nat): seq<nat> {
    if i == 0 then []
    else CommitsBefore(base, i - 1) + (if (i - 1) % TXN_SIZE == 0 && i - 1 != 0 then [base + i] else [])
  }

  /** All commits of one `write` of n records: the in-loop ones and the final one. */
  function CommitPoints(base: nat, n: nat): seq<nat> {
    CommitsBefore(base, n) + [base + n]
  }

  /** Inside the loop the k-th commit follows record 1024 (k + 1) + 1 of the batch. */
  lemma {:induction false} CommitsBeforeShape(base: nat, n: nat)
    ensures |CommitsBefore(base, n)| == if n == 0 then 0 else (n - 1) / TXN_SIZE
    ensures forall k :: 0 <= k < |CommitsBefore(base, n)| ==> CommitsBefore(base, n)[k] == base + TXN_SIZE * (k + 1) + 1
  {
    if n > 0 {
      CommitsBeforeShape(base, n - 1);
    }
  }

  /**
   * The transaction schedule of one `write` of n records: the first transaction holds 1025
   * records, the later in-loop ones 1024 each, and a last commit always closes the write,
   * holding the rest (none at all for an empty batch, or when n - 1 is a non-zero multiple
   * of 1024).
   */
  lemma CommitSchedule(base: nat, n: nat)
    ensures var c := CommitPoints(base, n);
      && |c| == (if n == 0 then 1 else (n - 1) / TXN_SIZE + 1)
      && c[|c| - 1] == base + n
      && (n > TXN_SIZE ==> c[0] == base + TXN_SIZE + 1)
      && (forall k :: 0 < k < |c| - 1 ==> c[k] == c[k - 1] + TXN_SIZE)
      && (c[|c| - 1] == (if |c| >= 2 then c[|c| - 2] else base) <==> n == 0 || (n > 1 && (n - 1) % TXN_SIZE == 0))
  {
    CommitsBeforeShape(base, n);
  }

  class LMDBWriter {
    const outputDir: string
    /** `_id`: the number of records put so far; the key uses its 64-bit value. */
    var id: nat
    /** The `mdb_put` calls, in order. */
    ghost var puts: seq<Record>
    /** For each `mdb_txn_commit`, the number of records put up to it. */
    ghost var commits: seq<nat>
    /** The batches handed to `write`, in order: a record of the calls, which the C++
        object does not keep. */
    ghost var batches: seq<seq<TrainDatum>>

    ghost predicate Valid()
      reads this
    {
      id == |puts|
    }

    constructor(outputDir: string)
      ensures this.outputDir == outputDir && id == 0 && puts == [] && commits == [] && batches == []
      ensures Valid()
    {
      this.outputDir := outputDir;
      id := 0;
      puts := [];
      commits := [];
      batches := [];
    }

    /**
     * `write`: the batch is put in the order of `shuffledIndecies`, each record under the next
     * id, byte-swapped; a commit follows every record at a non-zero position divisible by 1024,
     * and a final commit closes the batch.
     */
    method Write(data: seq<TrainDatum>, engine: Engine)
      requires Valid()
      modifies this
      ensures LmdbWrote(this, data, engine)
    {
      batches := batches + [data];
      var indices := ShuffledIndices(|data|, engine);
      ShuffledInRange(|data|, engine);
      ghost var all := Puts(old(id), data, engine);
      for i := 0 to |data|
        invariant id == old(id) + i && |puts| == |old(puts)| + i && batches == old(batches) + [data]
        invariant puts == old(puts) + all[..i]
        invariant commits == old(commits) + CommitsBefore(|old(puts)|, i)
      {
        var d := data[indices[i]];
        assert all[i] == Record(id, d);
        puts := puts + [Record(id, d)];
        id := id + 1;
        assert all[..i + 1] == all[..i] + [all[i]];
        if i % TXN_SIZE == 0 && i != 0 {
          commits := commits + [|puts|];
        }
      }
      assert all[..|data|] == all;
      commits := commits + [|puts|];
    }
  }

  /** What the LMDB writer's `write` does to it: the puts, the id and the transactions. */
  twostate predicate LmdbWrote(l: LMDBWriter, data: seq<TrainDatum>, engine: Engine)
    reads l
  {
    && l.Valid()
    && l.batches == old(l.batches) + [data]
    && l.id == old(l.id) + |data|
    && l.puts == old(l.puts) + Puts(old(l.id), data, engine)
    && l.commits == old(l.commits) + CommitPoints(|old(l.puts)|, |data|)
  }

  /** The samples the records hold, in record order. */
  function Datums(rs: seq<Record>): (r: seq<TrainDatum>)
    ensures |r| == |rs| && forall i :: 0 <= i < |rs| ==> r[i] == rs[i].datum
  {
    seq(|rs|, i requires 0 <= i < |rs| => rs[i].datum)
  }

  /** The samples put are the batch read along the shuffled order. */
  lemma PutsGather(id0: nat, data: seq<TrainDatum>, engine: Engine)
    ensures forall k :: 0 <= k < |data| ==> Shuffled(|data|, engine)[k] < |data|
    ensures Datums(Puts(id0, data, engine)) == Gather(data, Shuffled(|data|, engine))
  {
    ShuffledInRange(|data|, engine);
  }

  /** The samples put are the samples of the batch, each as often as it occurs there. */
  lemma PutsPermutes(id0: nat, data: seq<TrainDatum>, engine: Engine)
    ensures multiset(Datums(Puts(id0, data, engine))) == multiset(data)
  {
    PutsGather(id0, data, engine);
    GatherShuffledPermutes(data, engine);
  }

  /** Every sample of a batch is put exactly as often as it occurs in the batch, under
      consecutive ids, and nothing else is put. */
  lemma PutsEverySample(id0: nat, data: seq<TrainDatum>, engine: Engine)
    ensures |Puts(id0, data, engine)| == |data|
    ensures multiset(Datums(Puts(id0, data, engine))) == multiset(data)
    ensures forall i :: 0 <= i < |data| ==> Puts(id0, data, engine)[i].id == id0 + i
    ensures forall j :: 0 <= j < |data| ==> data[j] in Datums(Puts(id0, data, engine))
    ensures forall i :: 0 <= i < |data| ==> Puts(id0, data, engine)[i].datum in data
  {
    var ds := Datums(Puts(id0, data, engine));
    PutsPermutes(id0, data, engine);
    forall j | 0 <= j < |data|
      ensures data[j] in ds
    {
      assert data[j] in multiset(data);
    }
    forall i | 0 <= i < |data|
      ensures ds[i] in data
    {
      assert ds[i] in multiset(ds);
    }
  }

  // ----- HDF5Writer -----

  /** `MAX_HDF5_FILE`: the byte budget of one HDF5 file, 2^29. */
  const MAX_HDF5_FILE: nat := 0x2000_0000
  /** `sizeof(float)`. */
  const FLOAT_SIZE: nat := 4

  /** One HDF5 file: its path, the matrix shape of its "data" set, and the samples it holds. */
  datatype Shard = Shard(path: string, rows: nat, cols: nat, data: seq<TrainDatum>)

  /** Why `HDF5Writer::write` does not finish: `dataset.at(0)` on an empty first batch throws,
      a first sample of zero elements divides by zero, and a later sample of another size
      fails the size assertion. */
  datatype Hdf5Error = EmptyFirstBatch | ZeroSizedFirstDatum | SizeMismatch(expected: nat, got: nat)

  /** `nextFilename`: `<format>_<k>.hdf5`. */
  function ShardName(format: string, k: nat): string {
    format + "_" + NatToString(k) + ".hdf5"
  }

  /** Different counters give different file names. */
  lemma ShardNameInjective(format: string, a: nat, b: nat)
    ensures ShardName(format, a) == ShardName(format, b) ==> a == b
  {
    var s, t := ShardName(format, a), ShardName(format, b);
    if s == t {
      assert s[|format| + 1..|s| - 5] == NatToString(a);
      assert t[|format| + 1..|t| - 5] == NatToString(b);
      NatToStringInjective(a, b);
    }
  }

  /** The line the index file gets for shard k: the file name of the format path followed by
      the counter, without the directory. */
  lemma IndexLineOfShard(format: string, k: nat)
    ensures FileName(ShardName(format, k)) == FileName(format) + "_" + NatToString(k) + ".hdf5"
  {
    var tail := "_" + NatToString(k) + ".hdf5";
    assert ShardName(format, k) == format + tail;
    assert NoSeparator(tail) by {
      assert forall i :: 0 <= i < |tail| ==> tail[i] == '_' || tail[i] == '.' || tail[i] == 'h' || tail[i] == 'd' || tail[i] == 'f' || tail[i] == '5' || '0' <= tail[i] <= '9';
    }
    FileNameOfAppend(format, tail);
  }

  /** All samples of the shards, in file order. */
  function Flatten(shards: seq<Shard>): (r: seq<TrainDatum>)
    ensures shards == [] ==> r == []
  {
    if shards == [] then [] else Flatten(shards[..|shards| - 1]) + shards[|shards| - 1].data
  }

  lemma FlattenAppend(shards: seq<Shard>, s: Shard)
    ensures Flatten(shards + [s]) == Flatten(shards) + s.data
  {
    assert (shards + [s])[..|shards|] == shards;
  }

  /** File k is `<format>_k.hdf5` and index line k is its file name. */
  ghost predicate Numbered(shards: seq<Shard>, lines: seq<string>, format: string) {
    && |lines| == |shards|
    && (forall k {:trigger ShardName(format, k)} :: 0 <= k < |shards| ==> shards[k].path == ShardName(format, k))
    && (forall k {:trigger lines[k]} :: 0 <= k < |shards| ==> lines[k] == FileName(shards[k].path))
  }

  lemma NumberedAppend(shards: seq<Shard>, lines: seq<string>, format: string, s: Shard)
    requires Numbered(shards, lines, format) && s.path == ShardName(format, |shards|)
    ensures Numbered(shards + [s], lines + [FileName(s.path)], format)
  {
  }

  /** Every file holds `capacity` samples of the given shape. */
  ghost predicate AllFull(shards: seq<Shard>, capacity: nat, rows: nat, cols: nat) {
    forall k :: 0 <= k < |shards| ==> |shards[k].data| == capacity && shards[k].rows == rows && shards[k].cols == cols
  }

  lemma AllFullAppend(shards: seq<Shard>, capacity: nat, rows: nat, cols: nat, s: Shard)
    requires AllFull(shards, capacity, rows, cols)
    requires |s.data| == capacity && s.rows == rows && s.cols == cols
    ensures AllFull(shards + [s], capacity, rows, cols)
  {
  }

  lemma {:induction false} FlattenLength(shards: seq<Shard>, capacity: nat, rows: nat, cols: nat)
    requires AllFull(shards, capacity, rows, cols)
    ensures |Flatten(shards)| == |shards| * capacity
  {
    if shards != [] {
      var n := |shards|;
      FlattenLength(shards[..n - 1], capacity, rows, cols);
      assert (n - 1) * capacity + capacity == n * capacity;
    }
  }

  /** The samples of the first k files come first. */
  lemma {:induction false} FlattenPrefix(shards: seq<Shard>, k: nat)
    requires k <= |shards|
    ensures |Flatten(shards[..k])| <= |Flatten(shards)|
    ensures Flatten(shards)[..|Flatten(shards[..k])|] == Flatten(shards[..k])
    decreases |shards|
  {
    if k < |shards| {
      var n := |shards|;
      var init := shards[..n - 1];
      FlattenPrefix(init, k);
      assert init[..k] == shards[..k];
      assert Flatten(shards) == Flatten(init) + shards[n - 1].data;
    } else {
      assert shards[..k] == shards;
    }
  }

  /** File k holds the samples between the first k and the first k + 1 files. */
  lemma FlattenBlock(shards: seq<Shard>, k: nat)
    requires k < |shards|
    ensures |Flatten(shards[..k])| + |shards[k].data| == |Flatten(shards[..k + 1])| <= |Flatten(shards)|
    ensures Flatten(shards)[|Flatten(shards[..k])|..|Flatten(shards[..k + 1])|] == shards[k].data
  {
    FlattenPrefix(shards, k + 1);
    assert shards[..k + 1][..k] == shards[..k];
    assert Flatten(shards[..k + 1]) == Flatten(shards[..k]) + shards[k].data;
  }

  /** There are as many files as the accepted samples fill completely, and the buffer holds
      the rest. */
  lemma ShardCount(shards: seq<Shard>, buffer: seq<TrainDatum>, accepted: seq<TrainDatum>, capacity: nat, rows: nat, cols: nat)
    requires AllFull(shards, capacity, rows, cols) && Flatten(shards) + buffer == accepted
    requires |buffer| < capacity
    ensures |shards| == |accepted| / capacity
    ensures buffer == accepted[|shards| * capacity..]
  {
    FlattenLength(shards, capacity, rows, cols);
    var m := |shards| * capacity;
    assert |accepted| == m + |buffer|;
    assert capacity * |shards| == m;
    DivUnique(|accepted|, capacity, |shards|, |buffer|);
    assert accepted[m..] == buffer;
  }

  /** File k holds the k-th block of `capacity` accepted samples. */
  lemma ShardIsBlock(shards: seq<Shard>, accepted: seq<TrainDatum>, capacity: nat, rows: nat, cols: nat, k: nat)
    requires AllFull(shards, capacity, rows, cols) && Flatten(shards) <= accepted
    requires k < |shards|
    ensures (k + 1) * capacity <= |accepted| && shards[k].data == accepted[k * capacity..(k + 1) * capacity]
  {
    var f := Flatten(shards);
    FlattenBlock(shards, k);
    assert AllFull(shards[..k], capacity, rows, cols);
    assert AllFull(shards[..k + 1], capacity, rows, cols);
    FlattenLength(shards[..k], capacity, rows, cols);
    FlattenLength(shards[..k + 1], capacity, rows, cols);
    var lo, hi := k * capacity, (k + 1) * capacity;
    assert hi <= |f|;
    assert accepted[lo..hi] == f[lo..hi];
  }

  /** `_max_buffer_size` once the sample size is known. */
  function MaxBufferSize(matSize: nat): nat
    requires matSize > 0
  {
    MAX_HDF5_FILE / (matSize * FLOAT_SIZE)
  }

  /**
   * The buffer holds as many samples as fit the byte budget as floats: the largest count
   * within it, at least one when one sample fits. For the 64 x 64 patches the generator
   * produces that is 32768 samples per file.
   */
  lemma {:induction false} MaxBufferSizeFits(matSize: nat)
    requires matSize > 0
    ensures var m := MaxBufferSize(matSize);
      && m * (matSize * FLOAT_SIZE) <= MAX_HDF5_FILE < (m + 1) * (matSize * FLOAT_SIZE)
      && (m >= 1 <==> matSize * FLOAT_SIZE <= MAX_HDF5_FILE)
    ensures matSize == 64 * 64 ==> MaxBufferSize(matSize) == 32768
  {
    var b := matSize * FLOAT_SIZE;
    var m := MAX_HDF5_FILE / b;
    assert MAX_HDF5_FILE == m * b + MAX_HDF5_FILE % b;
    assert (m + 1) * b == m * b + b;
    if m >= 1 {
      MulAtLeast(b, m);
    }
  }

  /** The number of samples a full buffer holds: the flush test `size >= max` fires on every
      push when `max` is 0. */
  function Capacity(maxBufferSize: nat): (c: nat)
    ensures c >= 1 && (maxBufferSize > 0 ==> c == maxBufferSize)
  {
    if maxBufferSize == 0 then 1 else maxBufferSize
  }

  /** The sample size a batch is checked against: the one already fixed, or else that of
      the batch's first sample. */
  function BatchSize(matSize: nat, dataset: seq<TrainDatum>): (r: Result<nat, Hdf5Error>)
    ensures r.Ok? ==> r.value > 0
    ensures matSize > 0 ==> r == Ok(matSize)
    ensures r == Err(EmptyFirstBatch) <==> matSize == 0 && dataset == []
    ensures r == Err(ZeroSizedFirstDatum) <==> matSize == 0 && dataset != [] && dataset[0].mat.Total() == 0
  {
    if matSize > 0 then Ok(matSize)
    else if dataset == [] then Err(EmptyFirstBatch)
    else if dataset[0].mat.Total() == 0 then Err(ZeroSizedFirstDatum)
    else Ok(dataset[0].mat.Total())
  }

  /** The number of leading samples of `dataset` whose size is `size`. */
  function MatchingPrefix(size: nat, dataset: seq<TrainDatum>): (k: nat)
    ensures k <= |dataset|
    ensures forall i :: 0 <= i < k ==> dataset[i].mat.Total() == size
    ensures k < |dataset| ==> dataset[k].mat.Total() != size
  {
    if dataset == [] || dataset[0].mat.Total() != size then 0
    else 1 + MatchingPrefix(size, dataset[1..])
  }

  /** The invariant of `HDF5Writer` on the values of its fields. */
  ghost predicate Consistent(shards: seq<Shard>, lines: seq<string>, buffer: seq<TrainDatum>, accepted: seq<TrainDatum>,
                             format: string, matSize: nat, maxBufferSize: nat, rows: nat, cols: nat)
  {
    && Numbered(shards, lines, format)
    && Flatten(shards) + buffer == accepted
    && (matSize == 0 ==> maxBufferSize == 0 && accepted == [])
    && (matSize > 0 ==> maxBufferSize == MaxBufferSize(matSize))
    && (forall k :: 0 <= k < |accepted| ==> accepted[k].mat.Total() == matSize)
    && AllFull(shards, Capacity(maxBufferSize), rows, cols)
    && |buffer| < Capacity(maxBufferSize)
  }

  /** Buffering one sample of the fixed size, and writing a full buffer out as the next
      file, keeps the invariant. */
  lemma PushKeepsConsistent(shards: seq<Shard>, lines: seq<string>, buffer: seq<TrainDatum>, accepted: seq<TrainDatum>,
                            format: string, matSize: nat, maxBufferSize: nat, rows: nat, cols: nat, d: TrainDatum)
    requires Consistent(shards, lines, buffer, accepted, format, matSize, maxBufferSize, rows, cols)
    requires matSize > 0 && d.mat.Total() == matSize
    ensures var full := buffer + [d];
      var file := Shard(ShardName(format, |shards|), rows, cols, full);
      if |full| >= maxBufferSize then
        Consistent(shards + [file], lines + [FileName(file.path)], [], accepted + [d], format, matSize, maxBufferSize, rows, cols)
      else
        Consistent(shards, lines, full, accepted + [d], format, matSize, maxBufferSize, rows, cols)
  {
    var full := buffer + [d];
    var file := Shard(ShardName(format, |shards|), rows, cols, full);
    assert Flatten(shards) + full == accepted + [d];
    if |full| >= maxBufferSize {
      FlattenAppend(shards, file);
      NumberedAppend(shards, lines, format, file);
      AllFullAppend(shards, Capacity(maxBufferSize), rows, cols, file);
    }
  }

  class HDF5Writer {
    const outputDir: string
    /** `_unique_path_format`: `<dir>/<last component of dir>`. */
    const uniquePathFormat: string
    /** The index text file listing the HDF5 files. */
    const indexFile: string
    var buffer: seq<TrainDatum>
    var maxBufferSize: nat
    var fileId: nat
    var matSize: nat
    var matRows: nat
    var matCols: nat
    /** The HDF5 files written, in order. */
    ghost var shards: seq<Shard>
    /** The lines written to the index file, in order. */
    ghost var indexLines: seq<string>
    /** Every sample `write` has taken in, in order. */
    ghost var accepted: seq<TrainDatum>
    /** The batches handed to `write`, in order: a record of the calls, which the C++
        object does not keep. */
    ghost var batches: seq<seq<TrainDatum>>

    /**
     * The writer's invariant: file k is `<format>_k.hdf5` and the index lists its file name;
     * the files and then the buffer hold exactly the accepted samples, in order; all of
     * them have the size fixed by the first batch; every file holds a full buffer and the
     * buffer is never full.
     */
    ghost predicate Valid()
      reads this
    {
      && fileId == |shards|
      && Consistent(shards, indexLines, buffer, accepted, uniquePathFormat, matSize, maxBufferSize, matRows, matCols)
    }

    constructor(outputDir: string)
      ensures this.outputDir == outputDir
      ensures uniquePathFormat == Join(outputDir, FileName(outputDir))
      ensures indexFile == uniquePathFormat + ".txt"
      ensures matSize == 0 && fileId == 0 && buffer == []
      ensures shards == [] && indexLines == [] && accepted == [] && batches == []
      ensures Valid()
    {
      this.outputDir := outputDir;
      uniquePathFormat := Join(outputDir, FileName(outputDir));
      indexFile := Join(outputDir, FileName(outputDir)) + ".txt";
      buffer := [];
      maxBufferSize := 0;
      fileId := 0;
      matSize := 0;
      matRows := 0;
      matCols := 0;
      shards := [];
      indexLines := [];
      accepted := [];
      batches := [];
    }

    /** `nextFilename`: the name for the current counter, which then advances. */
    method NextFilename() returns (p: string)
      modifies this
      ensures p == ShardName(uniquePathFormat, old(fileId)) && fileId == old(fileId) + 1
      ensures buffer == old(buffer) && maxBufferSize == old(maxBufferSize)
      ensures matSize == old(matSize) && matRows == old(matRows) && matCols == old(matCols)
      ensures shards == old(shards) && indexLines == old(indexLines) && accepted == old(accepted)
      ensures batches == old(batches)
    {
      p := uniquePathFormat + "_" + NatToString(fileId) + ".hdf5";
      fileId := fileId + 1;
    }

    /** `writeBufferToFile`: the buffer becomes the next file, which the index lists. */
    method WriteBufferToFile()
      modifies this
      ensures shards == old(shards) + [Shard(ShardName(uniquePathFormat, old(fileId)), matRows, matCols, old(buffer))]
      ensures indexLines == old(indexLines) + [FileName(ShardName(uniquePathFormat, old(fileId)))]
      ensures fileId == old(fileId) + 1 && buffer == []
      ensures maxBufferSize == old(maxBufferSize) && accepted == old(accepted) && batches == old(batches)
      ensures matSize == old(matSize) && matRows == old(matRows) && matCols == old(matCols)
    {
      var path := NextFilename();
      shards := shards + [Shard(path, matRows, matCols, buffer)];
      indexLines := indexLines + [FileName(path)];
      buffer := [];
    }

    /**
     * `write`: the first batch fixes the sample size and the buffer size; then each sample
     * of the batch is checked against the size, buffered, and a full buffer is written out.
     * A sample of another size stops the batch, keeping the samples before it.
     */
    method Write(dataset: seq<TrainDatum>) returns (r: Result<(), Hdf5Error>)
      requires Valid()
      modifies this
      ensures Hdf5Wrote(this, dataset, r)
    {
      batches := batches + [dataset];
      if matSize == 0 {
        if |dataset| == 0 {
          return Err(EmptyFirstBatch);
        }
        if dataset[0].mat.Total() == 0 {
          return Err(ZeroSizedFirstDatum);
        }
        FixShape(dataset[0].mat);
      }
      r := PushAll(dataset);
    }

    /** The first batch fixes the sample size and shape, and with them the buffer size. */
    method FixShape(m: Patch)
      requires Valid() && matSize == 0 && m.Total() > 0
      modifies this
      ensures Valid()
      ensures matSize == m.Total() && matRows == m.rows && matCols == m.cols
      ensures maxBufferSize == MaxBufferSize(m.Total())
      ensures shards == old(shards) && buffer == old(buffer) && accepted == old(accepted)
      ensures batches == old(batches)
    {
      matSize := m.Total();
      matRows := m.rows;
      matCols := m.cols;
      maxBufferSize := MaxBufferSize(matSize);
    }

    /** The loop of `write` once the size is fixed: each sample is checked, then buffered;
        the first sample of another size stops it. */
    method PushAll(dataset: seq<TrainDatum>) returns (r: Result<(), Hdf5Error>)
      requires Valid() && matSize > 0
      modifies this
      ensures Valid()
      ensures var k := MatchingPrefix(matSize, dataset);
        && accepted == old(accepted) + dataset[..k]
        && (r.Ok? <==> k == |dataset|)
        && (r.Err? ==> r.error == SizeMismatch(matSize, dataset[k].mat.Total()))
      ensures matSize == old(matSize) && matRows == old(matRows) && matCols == old(matCols)
      ensures old(shards) <= shards && batches == old(batches)
    {
      ghost var k := MatchingPrefix(matSize, dataset);
      for i := 0 to |dataset|
        invariant Valid()
        invariant matSize == old(matSize) && matRows == old(matRows) && matCols == old(matCols)
        invariant accepted == old(accepted) + dataset[..i]
        invariant i <= k <= |dataset|
        invariant forall j :: 0 <= j < k ==> dataset[j].mat.Total() == matSize
        invariant old(shards) <= shards && batches == old(batches)
      {
        if dataset[i].mat.Total() != matSize {
          assert i == k;
          return Err(SizeMismatch(matSize, dataset[i].mat.Total()));
        }
        Push(dataset[i]);
        assert dataset[..i + 1] == dataset[..i] + [dataset[i]];
      }
      assert dataset[..|dataset|] == dataset;
      return Ok(());
    }

    /** One step of the loop in `write`: buffer a sample of the fixed size and write the
        buffer out when it is full. */
    method Push(d: TrainDatum)
      requires Valid() && matSize > 0 && d.mat.Total() == matSize
      modifies this
      ensures Valid() && accepted == old(accepted) + [d]
      ensures matSize == old(matSize) && matRows == old(matRows) && matCols == old(matCols)
      ensures old(shards) <= shards && batches == old(batches)
    {
      PushKeepsConsistent(shards, indexLines, buffer, accepted, uniquePathFormat, matSize, maxBufferSize, matRows, matCols, d);
      buffer := buffer + [d];
      accepted := accepted + [d];
      if |buffer| >= maxBufferSize {
        WriteBufferToFile();
      }
    }

    /** The destructor: a non-empty buffer is written out as a last, possibly shorter, file. */
    method Close()
      requires Valid()
      modifies this
      ensures buffer == [] && Flatten(shards) == accepted && accepted == old(accepted)
      ensures batches == old(batches)
      ensures old(buffer) != [] ==>
        && shards == old(shards) + [Shard(ShardName(uniquePathFormat, old(fileId)), matRows, matCols, old(buffer))]
        && indexLines == old(indexLines) + [FileName(ShardName(uniquePathFormat, old(fileId)))]
      ensures old(buffer) == [] ==> shards == old(shards) && indexLines == old(indexLines)
    {
      if |buffer| > 0 {
        FlattenAppend(shards, Shard(ShardName(uniquePathFormat, fileId), matRows, matCols, buffer));
        WriteBufferToFile();
      }
    }
  }

  /** What the HDF5 writer's `write` does to it, including what a failed `write` leaves. */
  twostate predicate Hdf5Wrote(h: HDF5Writer, data: seq<TrainDatum>, new r: Result<(), Hdf5Error>)
    reads h
  {
    && h.Valid()
    && h.batches == old(h.batches) + [data]
    && (BatchSize(old(h.matSize), data).Err? ==>
          && r == Err(BatchSize(old(h.matSize), data).error)
          && h.matSize == old(h.matSize) && h.shards == old(h.shards) && h.buffer == old(h.buffer)
          && h.accepted == old(h.accepted))
    && (BatchSize(old(h.matSize), data).Ok? ==>
          var size := BatchSize(old(h.matSize), data).value;
          var k := MatchingPrefix(size, data);
          && h.matSize == size
          && h.accepted == old(h.accepted) + data[..k]
          && (r.Ok? <==> k == |data|)
          && (r.Err? ==> r.error == SizeMismatch(size, data[k].mat.Total())))
    && (old(h.matSize) > 0 ==> h.matRows == old(h.matRows) && h.matCols == old(h.matCols))
    && (old(h.matSize) == 0 && h.matSize > 0 ==> h.matRows == data[0].mat.rows && h.matCols == data[0].mat.cols)
    && old(h.shards) <= h.shards
  }

  // ----- AllFormatWriter, DevNullWriter and the factory -----

  /** `AllFormatWriter`: an LMDB writer and an image writer on the same directory. */
  class AllFormatWriter {
    const lmdb: LMDBWriter
    const images: ImageWriter
    /** The batches handed to `write`, in order: a record of the calls, which the C++
        object does not keep. */
    ghost var batches: seq<seq<TrainDatum>>

    constructor(outputDir: string)
      ensures fresh(lmdb) && fresh(images) && batches == []
      ensures lmdb.outputDir == outputDir && lmdb.Valid() && lmdb.id == 0 && lmdb.puts == [] && lmdb.commits == []
      ensures lmdb.batches == []
      ensures images.outputDir == outputDir && images.images == [] && images.labels == [] && images.batches == []
    {
      lmdb := new LMDBWriter(outputDir);
      images := new ImageWriter(outputDir);
      batches := [];
    }

    /** `write`: the batch goes to the database first, then to the image files. */
    method Write(data: seq<TrainDatum>, engine: Engine)
      requires lmdb.Valid()
      modifies this, lmdb, images
      ensures batches == old(batches) + [data]
      ensures LmdbWrote(lmdb, data, engine) && ImagesWrote(images, data)
    {
      batches := batches + [data];
      lmdb.Write(data, engine);
      images.Write(data);
    }
  }

  /** `DevNullWriter`: its `write` ignores the batch. */
  class DevNullWriter {
    /** The batches handed to `write`, in order: a record of the calls, which the C++
        object does not keep. */
    ghost var batches: seq<seq<TrainDatum>>

    constructor()
      ensures batches == []
    {
      batches := [];
    }

    method Write(data: seq<TrainDatum>)
      modifies this
      ensures batches == old(batches) + [data]
    {
      batches := batches + [data];
    }
  }

  /** The writer `fromSaveFormat` builds. */
  datatype Writer =
    | AllOut(all: AllFormatWriter)
    | Hdf5Out(hdf5: HDF5Writer)
    | ImagesOut(images: ImageWriter)
    | LmdbOut(lmdb: LMDBWriter)
    | DevNullOut(devNull: DevNullWriter)
  {
    /** The objects a write may change. */
    function Footprint(): set<object> {
      match this
      case AllOut(a) => {a, a.lmdb, a.images}
      case Hdf5Out(h) => {h}
      case ImagesOut(i) => {i}
      case LmdbOut(l) => {l}
      case DevNullOut(d) => {d}
    }

    ghost predicate Valid()
      reads Footprint()
    {
      match this
      case AllOut(a) => a.lmdb.Valid()
      case Hdf5Out(h) => h.Valid()
      case ImagesOut(_) => true
      case LmdbOut(l) => l.Valid()
      case DevNullOut(_) => true
    }

    /** The batches handed to the virtual `write`, in order. */
    ghost function Batches(): seq<seq<TrainDatum>>
      reads Footprint()
    {
      match this
      case AllOut(a) => a.batches
      case Hdf5Out(h) => h.batches
      case ImagesOut(i) => i.batches
      case LmdbOut(l) => l.batches
      case DevNullOut(d) => d.batches
    }
  }

  /** What the virtual `write` does: the batch is handed over once, and each writer changes
      as its own `write` does. Only the HDF5 writer reports an error. */
  twostate predicate Wrote(w: Writer, data: seq<TrainDatum>, engine: Engine, new r: Result<(), Hdf5Error>)
    reads w.Footprint()
  {
    && w.Batches() == old(w.Batches()) + [data]
    && match w
       case AllOut(a) => r.Ok? && LmdbWrote(a.lmdb, data, engine) && ImagesWrote(a.images, data)
       case Hdf5Out(h) => Hdf5Wrote(h, data, r)
       case ImagesOut(i) => r.Ok? && ImagesWrote(i, data)
       case LmdbOut(l) => r.Ok? && LmdbWrote(l, data, engine)
       case DevNullOut(_) => r.Ok?
  }

  /** `DataWriter::fromSaveFormat`: one writer per format, the null writer for `DevNull`. */
  method FromSaveFormat(outputDir: string, format: Format) returns (w: Writer)
    ensures w.Valid() && fresh(w.Footprint()) && w.Batches() == []
    ensures format == All <==> w.AllOut?
    ensures format == HDF5 <==> w.Hdf5Out?
    ensures format == Images <==> w.ImagesOut?
    ensures format == LMDB <==> w.LmdbOut?
    ensures format == DevNull <==> w.DevNullOut?
    ensures w.AllOut? ==> w.all.lmdb.outputDir == outputDir && w.all.images.outputDir == outputDir
    ensures w.AllOut? ==> w.all.lmdb.puts == [] && w.all.lmdb.commits == [] && w.all.images.images == [] && w.all.images.labels == []
    ensures w.Hdf5Out? ==> w.hdf5.outputDir == outputDir && w.hdf5.accepted == [] && w.hdf5.shards == []
    ensures w.ImagesOut? ==> w.images.outputDir == outputDir && w.images.images == [] && w.images.labels == []
    ensures w.LmdbOut? ==> w.lmdb.outputDir == outputDir && w.lmdb.puts == [] && w.lmdb.commits == []
  {
    match format
    case All =>
      var a := new AllFormatWriter(outputDir);
      w := AllOut(a);
    case HDF5 =>
      var h := new HDF5Writer(outputDir);
      w := Hdf5Out(h);
    case Images =>
      var i := new ImageWriter(outputDir);
      w := ImagesOut(i);
    case LMDB =>
      var l := new LMDBWriter(outputDir);
      w := LmdbOut(l);
    case DevNull =>
      var d := new DevNullWriter();
      w := DevNullOut(d);
  }

  /**
   * The virtual `write`: each writer takes the batch as its own `write` does. Of the errors
   * the writers can raise, the model has only the HDF5 writer's shape errors.
   */
  method WriteTo(w: Writer, data: seq<TrainDatum>, engine: Engine) returns (r: Result<(), Hdf5Error>)
    requires w.Valid()
    modifies w.Footprint()
    ensures w.Valid()
    ensures !w.Hdf5Out? ==> r.Ok?
    ensures w.Batches() == old(w.Batches()) + [data]
    ensures Wrote(w, data, engine, r)
  {
    match w
    case AllOut(a) =>
      a.Write(data, engine);
      r := Ok(());
    case Hdf5Out(h) =>
      r := h.Write(data);
    case ImagesOut(i) =>
      i.Write(data);
      r := Ok(());
    case LmdbOut(l) =>
      l.Write(data, engine);
      r := Ok(());
    case DevNullOut(d) =>
      d.Write(data);
      r := Ok(());
  }
}
