/**
 * The image preprocessing tool (preprocess.cpp): every image of a path file
 * is loaded, processed (border, histogram equalisation, thresholding) and
 * written next to the others in an output directory under a "_wb" name in
 * the chosen format; the new paths are collected into an output path file.
 * The descriptors are split into contiguous slices, one per worker.
 *
 * The pixel processing is not modelled. Whether `cv::imwrite` succeeds is an
 * oracle keyed by the output path and the OpenCV write parameter. The
 * workers run one after the other in slice order.
 */
module Preprocessing {
  import opened Wrappers
  import opened Strings
  import opened FileSystems
  import opened Images
  import opened Slicing

  // ----- formats and compression -----

  datatype ImageFormat = PNG | JPEG

  /** `format_to_str`. (Its third branch, "wrong", cannot be reached: the enum has two values.) */
  function FormatToStr(format: ImageFormat): (s: string)
    ensures s == "jpeg" || s == "png"
    ensures NoSeparator(s) && forall i :: 0 <= i < |s| ==> s[i] != '.'
  {
    if format == JPEG then "jpeg" else "png"
  }

  /** The `--format` check of `main`: only the exact strings "png" and "jpeg" are accepted. */
  function ParseFormat(s: string): (r: Option<ImageFormat>)
    ensures r.Some? <==> s == "png" || s == "jpeg"
  {
    if s == "png" then Some(PNG) else if s == "jpeg" then Some(JPEG) else None
  }

  /** Parsing and printing a format are inverse to each other. */
  lemma FormatRoundTrip(format: ImageFormat, s: string)
    ensures ParseFormat(FormatToStr(format)) == Some(format)
    ensures ParseFormat(s).Some? ==> FormatToStr(ParseFormat(s).value) == s
  {
  }

  /** OpenCV's own defaults, used when no compression is given. */
  const DEFAULT_JPEG_COMPRESSION: int := 95
  const DEFAULT_PNG_COMPRESSION: int := 3

  function DefaultCompression(format: ImageFormat): (c: int)
    ensures ValidCompression(format, c)
  {
    if format == JPEG then DEFAULT_JPEG_COMPRESSION else DEFAULT_PNG_COMPRESSION
  }

  /** The range OpenCV accepts: a JPEG quality from 0 to 100, a PNG compression level from 0 to 9. */
  predicate ValidCompression(format: ImageFormat, c: int) {
    if format == JPEG then 0 <= c <= 100 else 0 <= c <= 9
  }

  /** The two `cv::imwrite` parameters `opencv_compression` can pick. */
  datatype WriteFlag = ImwriteJpegQuality | ImwritePngCompression

  datatype WriteParam = WriteParam(flag: WriteFlag, value: int)

  /** `PreprocessOptions`. */
  datatype PreprocessOptions = PreprocessOptions(
    outputDir: string,
    useHistEq: bool,
    useThresholding: bool,
    useBinaryImage: bool,
    addBorder: bool,
    format: ImageFormat,
    compression: int,
    benchmark: bool)
  {
    /** `opencv_compression()`: the quality flag for JPEG, the compression flag otherwise, with
        the configured value. */
    function OpenCvCompression(): (p: WriteParam)
      ensures p.value == compression
      ensures p.flag == ImwriteJpegQuality <==> format == JPEG
    {
      WriteParam(if format == JPEG then ImwriteJpegQuality else ImwritePngCompression, compression)
    }
  }

  // ----- output names -----

  /** `addWb`: the path without its extension, then "_wb." and the format. */
  function AddWb(path: string, format: ImageFormat): (r: string)
    ensures |r| > |DropExtension(path)| && r[..|DropExtension(path)|] == DropExtension(path)
  {
    DropExtension(path) + "_wb." + FormatToStr(format)
  }

  /** The last '.' of a name is the one before a dot-free tail. */
  lemma {:induction false} DotSuffixOfDotted(x: string, e: string)
    requires forall i :: 0 <= i < |e| ==> e[i] != '.'
    ensures DotSuffixLength(x + "." + e) == |e| + 1
    decreases |e|
  {
    var w := x + "." + e;
    if e != [] {
      var rest := e[..|e| - 1];
      assert w[..|w| - 1] == x + "." + rest;
      DotSuffixOfDotted(x, rest);
    }
  }

  /** The extension of `addWb(p, f)` is "." + the format, and dropping it leaves the original
      path without its extension followed by "_wb". */
  lemma AddWbExtension(path: string, format: ImageFormat)
    ensures var r := AddWb(path, format);
      && ExtensionLength(r) == |FormatToStr(format)| + 1
      && DropExtension(r) == DropExtension(path) + "_wb"
      && r[|r| - |FormatToStr(format)|..] == FormatToStr(format)
  {
    var q := DropExtension(path);
    var e := FormatToStr(format);
    WbExtension(q, e);
    var r := q + "_wb." + e;
    assert r[..|r| - (|e| + 1)] == q + "_wb";
  }

  /** Whatever precedes it, "_wb." followed by a name without '.' or separators is an extension. */
  lemma WbExtension(q: string, e: string)
    requires NoSeparator(e) && forall i :: 0 <= i < |e| ==> e[i] != '.'
    ensures ExtensionLength(q + "_wb." + e) == |e| + 1
  {
    var s := "_wb." + e;
    assert NoSeparator(s) by {
      assert forall i :: 4 <= i < |s| ==> s[i] == e[i - 4];
    }
    FileNameOfAppend(q, s);
    assert q + "_wb." + e == q + s;
    var f := FileName(q) + s;
    assert f == (FileName(q) + "_wb") + "." + e;
    DotSuffixOfDotted(FileName(q) + "_wb", e);
    assert |f| >= 4;
  }

  /** Where the worker writes an image: `addWb(output_dir / filename(desc.filename), format)`. */
  function OutputPath(outputDir: string, format: ImageFormat, filename: string): string {
    DropExtension(Join(outputDir, FileName(filename))) + "_wb." + FormatToStr(format)
  }

  // ----- slicing -----

  /** `max(2 * hardware_concurrency, 1)`: never zero. */
  function WorkerCount(hc: nat): (w: nat)
    ensures w >= 1 && w >= 2 * hc && (w == 1 || w == 2 * hc)
  {
    if 2 * hc >= 1 then 2 * hc else 1
  }

  /** `image_descs.size() / nb_cpus`: the full slices fit into the descriptors. */
  function Share(n: nat, workers: nat): (per: nat)
    requires workers >= 1
    ensures workers * per <= n
    ensures n < workers ==> per == 0
  {
    assert n == workers * (n / workers) + n % workers;
    n / workers
  }

  /** The worker slices of `preprocess`: `WorkerCount(hc)` slices of n / workers descriptors,
      the last one stretched to n. */
  function PreprocessSlices(n: nat, hc: nat): (r: seq<Slice>)
    ensures |r| == WorkerCount(hc)
    ensures forall i :: 0 <= i < |r| ==> r[i].start <= r[i].end <= n
  {
    SlicesTile(n, WorkerCount(hc), Share(n, WorkerCount(hc)));
    Slices(n, WorkerCount(hc), Share(n, WorkerCount(hc)))
  }

  /** The slices cover [0, n) contiguously, one per worker, and their sizes add up to n. */
  lemma {:induction false} PreprocessSlicesCover(n: nat, hc: nat)
    ensures var r := PreprocessSlices(n, hc);
      && r[0].start == 0 && r[|r| - 1].end == n
      && (forall i :: 0 <= i < |r| - 1 ==> r[i].end == r[i + 1].start)
      && (forall i :: 0 <= i < |r| ==> r[i].start <= r[i].end <= n)
      && SizeSum(r) == n
  {
    var w := WorkerCount(hc);
    var per := Share(n, w);
    SlicesTile(n, w, per);
    SliceSizesAddUp(n, w, per);
  }

  /** With fewer descriptors than workers every slice but the last is empty and the last holds
      everything. */
  lemma PreprocessSlicesFewDescriptors(n: nat, hc: nat)
    requires n < WorkerCount(hc)
    ensures var r := PreprocessSlices(n, hc);
      r[|r| - 1] == Slice(0, n) && forall i :: 0 <= i < |r| - 1 ==> r[i] == Slice(0, 0)
  {
    var w := WorkerCount(hc);
    var r := PreprocessSlices(n, hc);
    assert Share(n, w) == 0;
    forall i | 0 <= i < w
      ensures r[i] == SliceAt(n, w, 0, i)
    {
    }
  }

  /** The slicing loop of `preprocess`: one empty output list per worker, then slice i is
      [i * part, (i + 1) * part) except that the last ends at n. */
  method SliceWork(n: nat, hc: nat) returns (slices: seq<Slice>, outputs: seq<seq<string>>)
    ensures slices == PreprocessSlices(n, hc)
    ensures |outputs| == |slices| && forall i :: 0 <= i < |outputs| ==> outputs[i] == []
  {
    var workers := if 2 * hc >= 1 then 2 * hc else 1;
    var part := n / workers;
    assert part == Share(n, workers);
    outputs := [];
    for i := 0 to workers
      invariant |outputs| == i && forall k :: 0 <= k < i ==> outputs[k] == []
    {
      outputs := outputs + [[]];
    }
    slices := [];
    for i := 0 to workers
      invariant |slices| == i
      invariant forall k :: 0 <= k < i ==> slices[k] == SliceAt(n, workers, part, k)
    {
      var start := i * part;
      var end := (i + 1) * part;
      if i + 1 == workers {
        end := n;
      }
      slices := slices + [Slice(start, end)];
    }
  }

  // ----- one worker -----

  /** The name a worker gives the output of an input file. */
  function Naming(opt: PreprocessOptions): string -> string {
    (filename: string) => OutputPath(opt.outputDir, opt.format, filename)
  }

  /** Whether `img.write(output, opencv_compression())` succeeds for an output path. */
  function Writable(opt: PreprocessOptions, canWrite: (string, WriteParam) -> bool): string -> bool {
    (output: string) => canWrite(output, opt.OpenCvCompression())
  }

  /** Prefixes the paths written so far to the outcome of the rest of a slice. */
  function Prepend(paths: seq<string>, rest: Result<seq<string>, LoadError>): Result<seq<string>, LoadError> {
    match rest
    case Ok(more) => Ok(paths + more)
    case Err(e) => Err(e)
  }

  /** What `threadWorkerFn` does for the indices [i, end), given the naming rule and the write
      oracle: an image that does not exist throws (ending the program), an image that cannot be
      written ends the loop early, and every written image's path is recorded. */
  function SliceRun(fs: FileSystem, descs: seq<ImageDesc>, name: string -> string, write: string -> bool,
                    i: nat, end: nat): Result<seq<string>, LoadError>
    requires i <= end <= |descs|
    decreases end - i
  {
    if i == end then Ok([])
    else if !fs.Exists(descs[i].filename) then Err(FileMissing(descs[i].filename))
    else if !write(name(descs[i].filename)) then Ok([])
    else Prepend([name(descs[i].filename)], SliceRun(fs, descs, name, write, i + 1, end))
  }

  /** The output names of the descriptors [lo, hi), in order. */
  function OutputsOf(descs: seq<ImageDesc>, name: string -> string, lo: nat, hi: nat): (r: seq<string>)
    requires lo <= hi <= |descs|
    ensures |r| == hi - lo
    ensures forall k :: 0 <= k < hi - lo ==> r[k] == name(descs[lo + k].filename)
  {
    seq(hi - lo, (k: int) requires 0 <= k < hi - lo => name(descs[lo + k].filename))
  }

  /** A worker that finishes records the outputs of a prefix of its slice, in order. */
  lemma {:induction false} SliceRunMeaning(fs: FileSystem, descs: seq<ImageDesc>, name: string -> string,
                                           write: string -> bool, i: nat, end: nat)
    requires i <= end <= |descs|
    ensures var r := SliceRun(fs, descs, name, write, i, end);
      r.Ok? ==> |r.value| <= end - i && r.value == OutputsOf(descs, name, i, i + |r.value|)
    decreases end - i
  {
    if i < end && fs.Exists(descs[i].filename) && write(name(descs[i].filename)) {
      SliceRunMeaning(fs, descs, name, write, i + 1, end);
      var rest := SliceRun(fs, descs, name, write, i + 1, end);
      if rest.Ok? {
        assert [name(descs[i].filename)] + OutputsOf(descs, name, i + 1, i + 1 + |rest.value|) ==
               OutputsOf(descs, name, i, i + 1 + |rest.value|);
      }
    }
  }

  /** The images of that prefix exist and could be written; if the worker stopped short, the
      next image exists but failed to be written and the rest of the slice was skipped. */
  lemma {:induction false} SliceRunStops(fs: FileSystem, descs: seq<ImageDesc>, name: string -> string,
                                         write: string -> bool, i: nat, end: nat)
    requires i <= end <= |descs|
    ensures var r := SliceRun(fs, descs, name, write, i, end);
      r.Ok? ==>
        && i + |r.value| <= end
        && (forall k :: i <= k < i + |r.value| ==> fs.Exists(descs[k].filename) && write(name(descs[k].filename)))
        && (i + |r.value| < end ==>
              fs.Exists(descs[i + |r.value|].filename) && !write(name(descs[i + |r.value|].filename)))
    decreases end - i
  {
    if i < end && fs.Exists(descs[i].filename) && write(name(descs[i].filename)) {
      SliceRunStops(fs, descs, name, write, i + 1, end);
    }
  }

  /** A worker that throws met an image that does not exist. */
  lemma {:induction false} SliceRunFails(fs: FileSystem, descs: seq<ImageDesc>, name: string -> string,
                                         write: string -> bool, i: nat, end: nat)
    requires i <= end <= |descs|
    ensures var r := SliceRun(fs, descs, name, write, i, end);
      r.Err? ==> exists k :: i <= k < end && !fs.Exists(descs[k].filename) && r.error == FileMissing(descs[k].filename)
    decreases end - i
  {
    if i < end && fs.Exists(descs[i].filename) && write(name(descs[i].filename)) {
      SliceRunFails(fs, descs, name, write, i + 1, end);
    }
  }

  /** When every image of the slice exists and can be written, the worker writes them all. */
  lemma {:induction false} SliceRunAllWritten(fs: FileSystem, descs: seq<ImageDesc>, name: string -> string,
                                              write: string -> bool, i: nat, end: nat)
    requires i <= end <= |descs|
    requires forall k :: i <= k < end ==> fs.Exists(descs[k].filename) && write(name(descs[k].filename))
    ensures SliceRun(fs, descs, name, write, i, end) == Ok(OutputsOf(descs, name, i, end))
    decreases end - i
  {
    if i < end {
      SliceRunAllWritten(fs, descs, name, write, i + 1, end);
      assert [name(descs[i].filename)] + OutputsOf(descs, name, i + 1, end) == OutputsOf(descs, name, i, end);
    }
  }

  lemma PrependNothing(rest: Result<seq<string>, LoadError>)
    ensures Prepend([], rest) == rest
  {
    if rest.Ok? {
      assert [] + rest.value == rest.value;
    }
  }

  lemma PrependOne(paths: seq<string>, output: string, rest: Result<seq<string>, LoadError>)
    ensures Prepend(paths, Prepend([output], rest)) == Prepend(paths + [output], rest)
  {
    if rest.Ok? {
      assert paths + ([output] + rest.value) == (paths + [output]) + rest.value;
    }
  }

  /** `threadWorkerFn` for one slice: `name` is the naming rule of the options (`Naming`), and
      `write` tells whether `img.write` succeeds (`Writable`). */
  method ThreadWorker(fs: FileSystem, descs: seq<ImageDesc>, slice: Slice, name: string -> string,
                      write: string -> bool)
    returns (r: Result<seq<string>, LoadError>)
    requires slice.start <= slice.end <= |descs|
    ensures r == SliceRun(fs, descs, name, write, slice.start, slice.end)
  {
    var paths: seq<string> := [];
    var i := slice.start;
    PrependNothing(SliceRun(fs, descs, name, write, i, slice.end));
    while i < slice.end
      invariant slice.start <= i <= slice.end
      invariant SliceRun(fs, descs, name, write, slice.start, slice.end) ==
                Prepend(paths, SliceRun(fs, descs, name, write, i, slice.end))
      decreases slice.end - i
    {
      var desc := descs[i];
      var img := LoadImage(fs, desc);
      if img.Err? {
        return Err(img.error);
      }
      var output := name(desc.filename);
      if !write(output) {
        assert paths + [] == paths;
        return Ok(paths);
      }
      PrependOne(paths, output, SliceRun(fs, descs, name, write, i + 1, slice.end));
      paths := paths + [output];
      i := i + 1;
    }
    assert paths + [] == paths;
    r := Ok(paths);
  }

  // ----- all workers and the output path file -----

  /** The workers of the slices, in slice order; the first one that throws ends the program. */
  function RunSlices(fs: FileSystem, descs: seq<ImageDesc>, name: string -> string, write: string -> bool,
                     slices: seq<Slice>): (r: Result<seq<seq<string>>, LoadError>)
    requires forall i :: 0 <= i < |slices| ==> slices[i].start <= slices[i].end <= |descs|
    ensures r.Ok? ==> |r.value| == |slices|
  {
    if slices == [] then Ok([])
    else
      var last := slices[|slices| - 1];
      var earlier :- RunSlices(fs, descs, name, write, slices[..|slices| - 1]);
      var paths :- SliceRun(fs, descs, name, write, last.start, last.end);
      Ok(earlier + [paths])
  }

  /** The lines of the output path file: the paths of each list, list after list. */
  function Flatten(pathss: seq<seq<string>>): seq<string> {
    if pathss == [] then [] else Flatten(pathss[..|pathss| - 1]) + pathss[|pathss| - 1]
  }

  /** `nb_images`: the sum of the list sizes. */
  function TotalSize(pathss: seq<seq<string>>): nat {
    if pathss == [] then 0 else TotalSize(pathss[..|pathss| - 1]) + |pathss[|pathss| - 1]|
  }

  /** The count printed is the number of lines written. */
  lemma {:induction false} FlattenLength(pathss: seq<seq<string>>)
    ensures |Flatten(pathss)| == TotalSize(pathss)
  {
    if pathss != [] {
      FlattenLength(pathss[..|pathss| - 1]);
    }
  }

  /** Every line comes from one list, and every path of every list is a line. */
  lemma {:induction false} FlattenMembership(pathss: seq<seq<string>>)
    ensures forall p :: p in Flatten(pathss) <==> exists i :: 0 <= i < |pathss| && p in pathss[i]
  {
    if pathss != [] {
      var front := pathss[..|pathss| - 1];
      FlattenMembership(front);
      forall p
        ensures p in Flatten(pathss) <==> exists i :: 0 <= i < |pathss| && p in pathss[i]
      {
        assert Flatten(pathss) == Flatten(front) + pathss[|pathss| - 1];
        if p in Flatten(front) {
          var i :| 0 <= i < |front| && p in front[i];
          assert front[i] == pathss[i];
        }
        if exists i :: 0 <= i < |pathss| && p in pathss[i] {
          var i :| 0 <= i < |pathss| && p in pathss[i];
          if i < |front| {
            assert front[i] == pathss[i];
          }
        }
      }
    }
  }

  /** `writeOutputPathfile`: each path followed by a newline, list after list, and the count
      of paths. */
  method WriteOutputPathfile(pathss: seq<seq<string>>) returns (lines: seq<string>, count: nat)
    ensures lines == Flatten(pathss)
    ensures count == TotalSize(pathss) == |lines|
  {
    lines := [];
    count := 0;
    for i := 0 to |pathss|
      invariant lines == Flatten(pathss[..i]) && count == TotalSize(pathss[..i])
    {
      assert pathss[..i + 1][..i] == pathss[..i];
      count := count + |pathss[i]|;
      for j := 0 to |pathss[i]|
        invariant lines == Flatten(pathss[..i]) + pathss[i][..j]
      {
        lines := lines + [pathss[i][j]];
      }
    }
    assert pathss[..|pathss|] == pathss;
    FlattenLength(pathss);
  }

  /** What `preprocess` leaves behind: the lines of the output path file, the count it reports
      and the `nb_done` counter. */
  datatype Report = Report(pathfile: string, lines: seq<string>, count: nat, nbDone: nat)

  /** All workers of `preprocess`, given the naming rule and the write oracle. */
  function RunAll(fs: FileSystem, descs: seq<ImageDesc>, hc: nat, name: string -> string, write: string -> bool)
    : Result<seq<seq<string>>, LoadError>
  {
    RunSlices(fs, descs, name, write, PreprocessSlices(|descs|, hc))
  }

  function PreprocessSpec(fs: FileSystem, descs: seq<ImageDesc>, pathfile: string, opt: PreprocessOptions,
                          hc: nat, canWrite: (string, WriteParam) -> bool): Result<Report, LoadError>
  {
    var pathss :- RunAll(fs, descs, hc, Naming(opt), Writable(opt, canWrite));
    Ok(Report(pathfile, Flatten(pathss), TotalSize(pathss), TotalSize(pathss)))
  }

  /** Slices run in order contribute their outputs in order. */
  lemma {:induction false} RunSlicesAllWritten(fs: FileSystem, descs: seq<ImageDesc>, name: string -> string,
                                               write: string -> bool, slices: seq<Slice>)
    requires |slices| >= 1 && slices[0].start == 0
    requires forall i :: 0 <= i < |slices| - 1 ==> slices[i].end == slices[i + 1].start
    requires forall i :: 0 <= i < |slices| ==> slices[i].start <= slices[i].end <= |descs|
    requires forall k :: 0 <= k < slices[|slices| - 1].end ==> fs.Exists(descs[k].filename) && write(name(descs[k].filename))
    ensures var r := RunSlices(fs, descs, name, write, slices);
      r.Ok? && Flatten(r.value) == OutputsOf(descs, name, 0, slices[|slices| - 1].end)
  {
    var last := slices[|slices| - 1];
    var front := slices[..|slices| - 1];
    SliceRunAllWritten(fs, descs, name, write, last.start, last.end);
    var mine := OutputsOf(descs, name, last.start, last.end);
    if front == [] {
      assert RunSlices(fs, descs, name, write, front) == Ok([]);
      assert Flatten([mine]) == Flatten([]) + mine;
    } else {
      assert front[|front| - 1].end == last.start;
      assert forall i :: 0 <= i < |front| ==> front[i] == slices[i];
      RunSlicesAllWritten(fs, descs, name, write, front);
      var earlier := RunSlices(fs, descs, name, write, front).value;
      assert RunSlices(fs, descs, name, write, slices) == Ok(earlier + [mine]);
      assert (earlier + [mine])[..|earlier|] == earlier;
      OutputsOfConcat(descs, name, 0, last.start, last.end);
    }
  }

  lemma OutputsOfConcat(descs: seq<ImageDesc>, name: string -> string, lo: nat, mid: nat, hi: nat)
    requires lo <= mid <= hi <= |descs|
    ensures OutputsOf(descs, name, lo, mid) + OutputsOf(descs, name, mid, hi) == OutputsOf(descs, name, lo, hi)
  {
  }

  /** When every image exists and can be written, the workers together write the output of
      every descriptor, in descriptor order, whatever the number of workers. */
  lemma RunAllWritten(fs: FileSystem, descs: seq<ImageDesc>, hc: nat, name: string -> string, write: string -> bool)
    requires forall k :: 0 <= k < |descs| ==> fs.Exists(descs[k].filename) && write(name(descs[k].filename))
    ensures var r := RunAll(fs, descs, hc, name, write);
      r.Ok? && Flatten(r.value) == OutputsOf(descs, name, 0, |descs|) && TotalSize(r.value) == |descs|
  {
    var slices := PreprocessSlices(|descs|, hc);
    PreprocessSlicesCover(|descs|, hc);
    RunSlicesAllWritten(fs, descs, name, write, slices);
    FlattenLength(RunSlices(fs, descs, name, write, slices).value);
  }

  /** Whatever happens, every path the workers record is the output name of a descriptor that
      exists and whose image could be written. */
  lemma RunAllOutputs(fs: FileSystem, descs: seq<ImageDesc>, hc: nat, name: string -> string, write: string -> bool,
                      p: string)
    requires RunAll(fs, descs, hc, name, write).Ok?
    requires p in Flatten(RunAll(fs, descs, hc, name, write).value)
    ensures write(p)
    ensures exists k :: 0 <= k < |descs| && fs.Exists(descs[k].filename) && p == name(descs[k].filename)
  {
    RunSlicesOutputs(fs, descs, name, write, PreprocessSlices(|descs|, hc), p);
  }

  /** The same for any slicing of the descriptors. */
  lemma RunSlicesOutputs(fs: FileSystem, descs: seq<ImageDesc>, name: string -> string, write: string -> bool,
                         slices: seq<Slice>, p: string)
    requires forall j :: 0 <= j < |slices| ==> slices[j].start <= slices[j].end <= |descs|
    requires RunSlices(fs, descs, name, write, slices).Ok?
    requires p in Flatten(RunSlices(fs, descs, name, write, slices).value)
    ensures write(p)
    ensures exists k :: 0 <= k < |descs| && fs.Exists(descs[k].filename) && p == name(descs[k].filename)
  {
    var pathss := RunSlices(fs, descs, name, write, slices).value;
    FlattenMembership(pathss);
    var i :| 0 <= i < |pathss| && p in pathss[i];
    RunSlicesEach(fs, descs, name, write, slices, i);
    SliceOutputs(fs, descs, name, write, slices[i].start, slices[i].end, pathss[i], p);
  }

  /** One worker's share of the same fact. */
  lemma SliceOutputs(fs: FileSystem, descs: seq<ImageDesc>, name: string -> string, write: string -> bool,
                     lo: nat, hi: nat, paths: seq<string>, p: string)
    requires lo <= hi <= |descs|
    requires SliceRun(fs, descs, name, write, lo, hi) == Ok(paths) && p in paths
    ensures write(p)
    ensures exists k :: 0 <= k < |descs| && fs.Exists(descs[k].filename) && p == name(descs[k].filename)
  {
    SliceRunMeaning(fs, descs, name, write, lo, hi);
    SliceRunStops(fs, descs, name, write, lo, hi);
    var j :| 0 <= j < |paths| && paths[j] == p;
    assert p == name(descs[lo + j].filename);
  }

  /** A successful run holds, for each slice, what that slice's worker produced. */
  lemma {:induction false} RunSlicesEach(fs: FileSystem, descs: seq<ImageDesc>, name: string -> string,
                                         write: string -> bool, slices: seq<Slice>, i: nat)
    requires forall j :: 0 <= j < |slices| ==> slices[j].start <= slices[j].end <= |descs|
    requires RunSlices(fs, descs, name, write, slices).Ok? && i < |slices|
    ensures SliceRun(fs, descs, name, write, slices[i].start, slices[i].end) ==
            Ok(RunSlices(fs, descs, name, write, slices).value[i])
  {
    var front := slices[..|slices| - 1];
    if i < |front| {
      assert front[i] == slices[i];
      RunSlicesEach(fs, descs, name, write, front, i);
    }
  }

  lemma PreprocessSpecOf(fs: FileSystem, descs: seq<ImageDesc>, pathfile: string, opt: PreprocessOptions,
                         hc: nat, canWrite: (string, WriteParam) -> bool, pathss: seq<seq<string>>)
    requires RunAll(fs, descs, hc, Naming(opt), Writable(opt, canWrite)) == Ok(pathss)
    ensures PreprocessSpec(fs, descs, pathfile, opt, hc, canWrite) ==
            Ok(Report(pathfile, Flatten(pathss), TotalSize(pathss), TotalSize(pathss)))
  {
  }

  /** The first worker that throws decides the outcome of the whole run. */
  lemma {:induction false} RunSlicesErrSticks(fs: FileSystem, descs: seq<ImageDesc>, name: string -> string,
                                              write: string -> bool, slices: seq<Slice>, m: nat)
    requires forall i :: 0 <= i < |slices| ==> slices[i].start <= slices[i].end <= |descs|
    requires m <= |slices| && RunSlices(fs, descs, name, write, slices[..m]).Err?
    ensures RunSlices(fs, descs, name, write, slices) == RunSlices(fs, descs, name, write, slices[..m])
    decreases |slices|
  {
    if m < |slices| {
      var front := slices[..|slices| - 1];
      assert front[..m] == slices[..m];
      RunSlicesErrSticks(fs, descs, name, write, front, m);
    } else {
      assert slices[..m] == slices;
    }
  }

  lemma PreprocessSpecErr(fs: FileSystem, descs: seq<ImageDesc>, pathfile: string, opt: PreprocessOptions,
                          hc: nat, canWrite: (string, WriteParam) -> bool, e: LoadError)
    requires RunAll(fs, descs, hc, Naming(opt), Writable(opt, canWrite)) == Err(e)
    ensures PreprocessSpec(fs, descs, pathfile, opt, hc, canWrite) == Err(e)
  {
  }

  /** `preprocess`: slice the descriptors, run one worker per slice (here one after the
      other), then write the output path file. */
  method Preprocess(fs: FileSystem, descs: seq<ImageDesc>, pathfile: string, opt: PreprocessOptions,
                    hc: nat, canWrite: (string, WriteParam) -> bool)
    returns (r: Result<Report, LoadError>)
    ensures r == PreprocessSpec(fs, descs, pathfile, opt, hc, canWrite)
  {
    var slices, outputs := SliceWork(|descs|, hc);
    PreprocessSlicesCover(|descs|, hc);
    var workers, nbDone := RunWorkers(fs, descs, slices, outputs, Naming(opt), Writable(opt, canWrite));
    if workers.Err? {
      PreprocessSpecErr(fs, descs, pathfile, opt, hc, canWrite, workers.error);
      return Err(workers.error);
    }
    PreprocessSpecOf(fs, descs, pathfile, opt, hc, canWrite, workers.value);
    var lines, count := WriteOutputPathfile(workers.value);
    r := Ok(Report(pathfile, lines, count, nbDone));
  }

  /** The worker threads of `preprocess`, one per slice, each filling its own output list and
      counting into `nb_done`; the model runs them one after the other. */
  method RunWorkers(fs: FileSystem, descs: seq<ImageDesc>, slices: seq<Slice>, outputs: seq<seq<string>>,
                    name: string -> string, write: string -> bool)
    returns (r: Result<seq<seq<string>>, LoadError>, nbDone: nat)
    requires forall i :: 0 <= i < |slices| ==> slices[i].start <= slices[i].end <= |descs|
    requires |outputs| == |slices|
    ensures r == RunSlices(fs, descs, name, write, slices)
    ensures r.Ok? ==> nbDone == TotalSize(r.value)
  {
    var lists := outputs;
    nbDone := 0;
    for i := 0 to |slices|
      invariant |lists| == |slices|
      invariant RunSlices(fs, descs, name, write, slices[..i]).Ok?
      invariant lists[..i] == RunSlices(fs, descs, name, write, slices[..i]).value
      invariant nbDone == TotalSize(lists[..i])
    {
      var worker := ThreadWorker(fs, descs, slices[i], name, write);
      assert slices[..i + 1][..i] == slices[..i];
      if worker.Err? {
        RunSlicesErrSticks(fs, descs, name, write, slices, i + 1);
        return Err(worker.error), nbDone;
      }
      var paths := worker.value;
      assert lists[i := paths][..i + 1] == lists[..i] + [paths];
      lists := lists[i := paths];
      assert lists[..i + 1][..i] == lists[..i];
      nbDone := nbDone + |paths|;
    }
    assert slices[..|slices|] == slices;
    assert lists[..|lists|] == lists;
    r := Ok(lists);
  }

  // ----- benchmark -----

  /** `benchmark_formats`: four JPEG qualities, then four PNG compression levels. */
  function BenchmarkFormats(): (r: seq<(ImageFormat, int)>)
    ensures |r| == 8
    ensures forall i :: 0 <= i < 4 ==> r[i] == (JPEG, 75 + 5 * i)
    ensures forall i :: 0 <= i < 4 ==> r[4 + i] == (PNG, 9 - 3 * i)
  {
    seq(4, (i: int) requires 0 <= i < 4 => (JPEG, [75, 80, 85, 90][i])) +
    seq(4, (i: int) requires 0 <= i < 4 => (PNG, [9, 6, 3, 0][i]))
  }

  /** Every benchmarked setting is one OpenCV accepts, and no setting is tried twice. */
  lemma BenchmarkFormatsValid()
    ensures forall i :: 0 <= i < 8 ==> ValidCompression(BenchmarkFormats()[i].0, BenchmarkFormats()[i].1)
    ensures forall i, j :: 0 <= i < j < 8 ==> BenchmarkFormats()[i] != BenchmarkFormats()[j]
  {
    var r := BenchmarkFormats();
    forall i, j | 0 <= i < j < 8
      ensures r[i] != r[j]
    {
      if j < 4 || 4 <= i {
      } else {
        assert r[i].0 == JPEG && r[j].0 == PNG;
      }
    }
  }

  /** The directory one benchmark setting writes to: `<format>_c_<compression>` below the
      output directory. */
  function BenchmarkDirName(format: ImageFormat, compression: int): (name: string)
    ensures name != [] && name[0] != '/'
  {
    FormatToStr(format) + "_c_" + IntToString(compression)
  }

  function BenchmarkOptions(opt: PreprocessOptions, setting: (ImageFormat, int)): (b: PreprocessOptions)
    ensures b.format == setting.0 && b.compression == setting.1
    ensures b.outputDir == Join(opt.outputDir, BenchmarkDirName(setting.0, setting.1))
    ensures b.(outputDir := opt.outputDir, format := opt.format, compression := opt.compression) == opt
  {
    opt.(format := setting.0, compression := setting.1,
         outputDir := Join(opt.outputDir, BenchmarkDirName(setting.0, setting.1)))
  }

  /** Printing integers is injective. */
  lemma IntToStringInjective(a: int, b: int)
    ensures IntToString(a) == IntToString(b) ==> a == b
  {
    if a >= 0 && b >= 0 {
      NatToStringInjective(a, b);
    } else if a < 0 && b < 0 {
      NegativeToStringInjective(-a, -b);
    } else if a >= 0 {
      SignedDiffers(a, -b);
    } else {
      SignedDiffers(b, -a);
    }
  }

  /** A non-negative number never prints like a negative one. */
  lemma SignedDiffers(x: nat, y: nat)
    ensures NatToString(x) != "-" + NatToString(y)
  {
    assert ("-" + NatToString(y))[0] == '-';
  }

  lemma NegativeToStringInjective(x: nat, y: nat)
    ensures "-" + NatToString(x) == "-" + NatToString(y) ==> x == y
  {
    if "-" + NatToString(x) == "-" + NatToString(y) {
      assert NatToString(x) == ("-" + NatToString(x))[1..];
      assert NatToString(y) == ("-" + NatToString(y))[1..];
      NatToStringInjective(x, y);
    }
  }

  /** Different settings get different directory names. */
  lemma BenchmarkDirNameInjective(f1: ImageFormat, c1: int, f2: ImageFormat, c2: int)
    ensures BenchmarkDirName(f1, c1) == BenchmarkDirName(f2, c2) ==> f1 == f2 && c1 == c2
  {
    var n1 := BenchmarkDirName(f1, c1);
    var n2 := BenchmarkDirName(f2, c2);
    if n1 == n2 {
      var k := |FormatToStr(f1) + "_c_"|;
      assert IntToString(c1) == n1[k..] && IntToString(c2) == n2[k..];
      IntToStringInjective(c1, c2);
    }
  }

  /** `dir / name` is injective in `name` among names that do not start with a separator. */
  lemma JoinInjective(dir: string, a: string, b: string)
    requires a != [] && b != [] && a[0] != '/' && b[0] != '/'
    ensures Join(dir, a) == Join(dir, b) ==> a == b
  {
    var prefix := if dir == [] || dir[|dir| - 1] == '/' then dir else dir + "/";
    assert Join(dir, a) == prefix + a && Join(dir, b) == prefix + b;
    if Join(dir, a) == Join(dir, b) {
      assert a == (prefix + a)[|prefix|..];
      assert b == (prefix + b)[|prefix|..];
    }
  }

  /** The eight benchmark runs write to eight different directories. */
  lemma BenchmarkDirsDistinct(opt: PreprocessOptions)
    ensures forall i, j :: 0 <= i < j < 8 ==>
      BenchmarkOptions(opt, BenchmarkFormats()[i]).outputDir != BenchmarkOptions(opt, BenchmarkFormats()[j]).outputDir
  {
    var r := BenchmarkFormats();
    BenchmarkFormatsValid();
    forall i, j | 0 <= i < j < 8
      ensures BenchmarkOptions(opt, r[i]).outputDir != BenchmarkOptions(opt, r[j]).outputDir
    {
      JoinInjective(opt.outputDir, BenchmarkDirName(r[i].0, r[i].1), BenchmarkDirName(r[j].0, r[j].1));
      BenchmarkDirNameInjective(r[i].0, r[i].1, r[j].0, r[j].1);
    }
  }

  /** `benchmark`: `preprocess` once per setting, in the order of `BenchmarkFormats`, each into
      its own directory and each rewriting the same output path file. */
  method Benchmark(fs: FileSystem, descs: seq<ImageDesc>, pathfile: string, opt: PreprocessOptions,
                   hc: nat, canWrite: (string, WriteParam) -> bool)
    returns (r: Result<seq<Report>, LoadError>)
    ensures r == RunInOrder(BenchmarkRun(fs, descs, pathfile, opt, hc, canWrite), BenchmarkFormats())
  {
    var formats := BenchmarkFormats();
    r := RunSettings(fs, descs, pathfile, opt, hc, canWrite, formats);
  }

  /** The loop of `benchmark` over the given settings. */
  method RunSettings(fs: FileSystem, descs: seq<ImageDesc>, pathfile: string, opt: PreprocessOptions,
                     hc: nat, canWrite: (string, WriteParam) -> bool, settings: seq<(ImageFormat, int)>)
    returns (r: Result<seq<Report>, LoadError>)
    ensures r == RunInOrder(BenchmarkRun(fs, descs, pathfile, opt, hc, canWrite), settings)
  {
    ghost var run := BenchmarkRun(fs, descs, pathfile, opt, hc, canWrite);
    var results: seq<Report> := [];
    for i := 0 to |settings|
      invariant RunInOrder(run, settings[..i]) == Ok(results)
    {
      var report := RunSetting(fs, descs, pathfile, opt, hc, canWrite, settings[i]);
      assert settings[..i + 1][..i] == settings[..i];
      if report.Err? {
        RunInOrderErrSticks(run, settings, i + 1);
        return Err(report.error);
      }
      results := results + [report.value];
    }
    assert settings[..|settings|] == settings;
    r := Ok(results);
  }

  /** The run of `preprocess` with the options of one benchmark setting. */
  function BenchmarkRun(fs: FileSystem, descs: seq<ImageDesc>, pathfile: string, opt: PreprocessOptions,
                        hc: nat, canWrite: (string, WriteParam) -> bool): ((ImageFormat, int)) -> Result<Report, LoadError>
  {
    setting => PreprocessSpec(fs, descs, pathfile, BenchmarkOptions(opt, setting), hc, canWrite)
  }

  /** One pass of the benchmark loop: the options of the setting, then `preprocess`. */
  method RunSetting(fs: FileSystem, descs: seq<ImageDesc>, pathfile: string, opt: PreprocessOptions,
                    hc: nat, canWrite: (string, WriteParam) -> bool, setting: (ImageFormat, int))
    returns (r: Result<Report, LoadError>)
    ensures r == BenchmarkRun(fs, descs, pathfile, opt, hc, canWrite)(setting)
  {
    var benchOpt := BenchmarkOptions(opt, setting);
    r := Preprocess(fs, descs, pathfile, benchOpt, hc, canWrite);
  }

  /** The runs of the settings one after the other: every report, or the error of the first run
      that throws. */
  function RunInOrder<S>(run: S -> Result<Report, LoadError>, settings: seq<S>): Result<seq<Report>, LoadError> {
    if settings == [] then Ok([])
    else
      var earlier :- RunInOrder(run, settings[..|settings| - 1]);
      var report :- run(settings[|settings| - 1]);
      Ok(earlier + [report])
  }

  /** Once a setting has thrown, the later ones are never run. */
  lemma {:induction false} RunInOrderErrSticks<S>(run: S -> Result<Report, LoadError>, settings: seq<S>, m: nat)
    requires m <= |settings| && RunInOrder(run, settings[..m]).Err?
    ensures RunInOrder(run, settings) == RunInOrder(run, settings[..m])
    decreases |settings|
  {
    if m < |settings| {
      var front := settings[..|settings| - 1];
      assert front[..m] == settings[..m];
      RunInOrderErrSticks(run, front, m);
    } else {
      assert settings[..m] == settings;
    }
  }

  /** The benchmark yields one report per setting, each the run with that setting; or the error
      of the first setting that throws, every earlier one having completed. */
  lemma {:induction false} RunInOrderMeaning<S>(run: S -> Result<Report, LoadError>, settings: seq<S>)
    ensures var r := RunInOrder(run, settings);
      r.Ok? ==> (|r.value| == |settings| && forall k :: 0 <= k < |settings| ==> run(settings[k]) == Ok(r.value[k]))
    ensures var r := RunInOrder(run, settings);
      r.Err? ==> exists k :: (0 <= k < |settings| && run(settings[k]) == Err(r.error) &&
                              forall j :: 0 <= j < k ==> run(settings[j]).Ok?)
  {
    if settings != [] {
      var front := settings[..|settings| - 1];
      RunInOrderMeaning(run, front);
      assert forall k :: 0 <= k < |front| ==> front[k] == settings[k];
    }
  }

  // ----- the option choice of main -----

  /** The options `main` reads; `pathfile` is the first positional argument. */
  datatype CommandLine = CommandLine(
    help: bool,
    pathfile: Option<string>,
    outputDir: Option<string>,
    outputPathfile: string,
    border: bool,
    useHistEq: bool,
    useThreshold: bool,
    binaryImage: bool,
    format: string,
    compression: Option<int>,
    benchmark: bool)

  /** A command line giving only the path file and the output directory: the declared defaults. */
  function DefaultCommandLine(pathfile: string, outputDir: string): CommandLine {
    CommandLine(false, Some(pathfile), Some(outputDir), "images.txt", true, false, false, false, "jpeg", None, false)
  }

  /** What `main` goes on to do: print the usage (status 0), abort on the exception the loading
      of `pathfile` threw, reject the format (status 1), or run on the descriptors of `pathfile`. */
  datatype Launch =
    | Usage
    | LoadFailed(pathfile: string)
    | BadFormat(format: string)
    | Run(pathfile: string, outputPathfile: string, opt: PreprocessOptions)

  /** The status `main` returns or exits with; none when an uncaught exception aborts it. */
  function ExitStatus(l: Launch): Option<int> {
    match l
    case LoadFailed(_) => None
    case BadFormat(_) => Some(1)
    case _ => Some(0)
  }

  /** A POSIX path is relative unless it starts at the root. */
  predicate IsRelative(p: string) {
    p == [] || p[0] != '/'
  }

  /** `main`'s choices, in its order: the usage unless both the path file and the output
      directory are given; then the descriptors of the path file are loaded, which throws when
      the path file, a listed image or a side-file is missing or malformed (`pathfileLoads`, the
      outcome of that load, is a parameter); only then the format must be "png" or "jpeg".
      On a run, a relative output path file goes below the output directory, the compression
      falls back to the format's default, and a binary image turns thresholding on. */
  function Configure(cli: CommandLine, pathfileLoads: bool): (r: Launch)
    ensures r.Usage? <==> cli.help || cli.pathfile.None? || cli.outputDir.None?
    ensures r.LoadFailed? <==> !cli.help && cli.pathfile.Some? && cli.outputDir.Some? && !pathfileLoads
    ensures r.LoadFailed? ==> r.pathfile == cli.pathfile.value && ExitStatus(r).None?
    ensures ExitStatus(r) == Some(1) <==>
      !cli.help && cli.pathfile.Some? && cli.outputDir.Some? && pathfileLoads &&
      cli.format != "png" && cli.format != "jpeg"
    ensures r.Run? ==>
      && pathfileLoads
      && r.pathfile == cli.pathfile.value
      && FormatToStr(r.opt.format) == cli.format
      && r.opt.outputDir == cli.outputDir.value
      && r.opt.compression == (if cli.compression.Some? then cli.compression.value else DefaultCompression(r.opt.format))
      && r.opt.useThresholding == (cli.useThreshold || cli.binaryImage)
      && r.opt.useBinaryImage == cli.binaryImage && r.opt.useHistEq == cli.useHistEq
      && r.opt.addBorder == cli.border && r.opt.benchmark == cli.benchmark
    ensures r.Run? && IsRelative(cli.outputPathfile) ==> r.outputPathfile == Join(cli.outputDir.value, cli.outputPathfile)
    ensures r.Run? && !IsRelative(cli.outputPathfile) ==> r.outputPathfile == cli.outputPathfile
  {
    if cli.help || cli.pathfile.None? || cli.outputDir.None? then Usage
    else if !pathfileLoads then LoadFailed(cli.pathfile.value)
    else
      var outputDir := cli.outputDir.value;
      var outputPathfile := if IsRelative(cli.outputPathfile) then Join(outputDir, cli.outputPathfile) else cli.outputPathfile;
      match ParseFormat(cli.format)
      case None => BadFormat(cli.format)
      case Some(format) =>
        var compression := if cli.compression.Some? then cli.compression.value else DefaultCompression(format);
        Run(cli.pathfile.value, outputPathfile,
            PreprocessOptions(outputDir, cli.useHistEq, cli.useThreshold || cli.binaryImage, cli.binaryImage,
                              cli.border, format, compression, cli.benchmark))
  }

  /** With only the path file and the output directory given, and a path file that loads, the
      images are written as JPEG of quality 95 with a border, and the path file goes to
      `<output_dir>/images.txt`. */
  lemma ConfigureDefaults(pathfile: string, outputDir: string)
    ensures var r := Configure(DefaultCommandLine(pathfile, outputDir), true);
      && r == Run(pathfile, Join(outputDir, "images.txt"), r.opt)
      && r.opt.format == JPEG && r.opt.compression == DEFAULT_JPEG_COMPRESSION
      && r.opt.addBorder && !r.opt.useThresholding && !r.opt.useHistEq && !r.opt.benchmark
      && r.opt.OpenCvCompression() == WriteParam(ImwriteJpegQuality, 95)
  {
  }
}
