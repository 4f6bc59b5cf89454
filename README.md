# deeplocalizer tagger core, modelled in Dafny

This project models the bookkeeping core of the deeplocalizer tagger. The tagger is a C++/Qt tool chain.
It lets a user mark bee tags on hive images. From the marked images it generates training patches and writes
them as image files, LMDB records or HDF5 shards.

The model covers these parts:

- **Geometry and tags** (`geometry.dfy`, `tag.dfy`).
  - The 64×64 tag box around a centre, and the clamping of crop rectangles in `getSubimage`.
  - The four-valued `TagType`, with `toggleIsTag` and `guessIsTag`.
  - Building a tag from a pipeline tag, and tag equality, including its quirk.
- **Image descriptors** (`image.dfy`, with `filesystem.dfy`, `json.dfy` and `strings.dfy`).
  - The tag list, structural equality and the side-file name.
  - The JSON round trip.
  - Building descriptors from paths, with the file system as a value.
- **Dataset writers** (`train_data.dfy`, `lmdb_keys.dfy`, `shuffle.dfy`, `data_writer.dfy`).
  - Format parsing and the image writer with its manifest.
  - The LMDB key byte swap, key assignment and commit schedule.
  - HDF5 sharding: the shape fixed by the first batch, the buffer bound and the numbered shards.
  - The all-format writer and the writer factory.
  - The effects on LMDB, HDF5 and the file system are logs of puts, commits, shard files and index lines.
  - Every writer also keeps a ghost log of the batches handed to its `write`.
- **Sample generation** (`trainset_generator.dfy`, `slicing.dfy`).
  - Collecting the true-tag boxes.
  - The quota loop, with point drawing and acceptance supplied by a sampler, and the rotation gate.
  - `postProcess`, the per-descriptor process-and-write loop and the worker slicing of `processParallel`.
  - The generator's invariant ties the batches it handed over to its writer's log.
- **The tagging session** (`manually_tagger.dfy`).
  - `init`, with its done-first ordering and side-file resolution.
  - Navigation, the done flags and counter, and the progress file with its JSON round trip.
  - The signals the object emits are a ghost log.
- **Whole-image editing** (`whole_image_widget.dfy`): the tag lists of the view and the set of deleted ids, under `eraseTag`, `createTag`, `getTag`, `tagProcessed` and a mouse click.
- **The preprocessing tool** (`preprocess.dfy`).
  - Format names and the `_wb` output names.
  - The worker slices and the workers' loop.
  - The output path file, the benchmark settings and the option choices of `main`.
- **Utilities** (`utils.dfy`): `shuffledIndecies`, the ETA decomposition of `printProgress`, and `ASSERT`.

The model follows the form of the C++ code:

- Objects whose fields change are classes. Their collections are `seq`, `set` or `map` fields, reassigned by the methods.
- Value types (`Tag`, `ImageDesc`, `TrainDatum`) are datatypes.
- Loops are methods proved against specification functions. The lemmas about those functions carry the properties.
- Errors the C++ code throws become `Result` values. This covers `ASSERT` failures, `at` past the end, a missing file and a malformed document.
- Integer widths are explicit where they matter: LMDB keys are `bv64`, and indices read from JSON wrap modulo 2^64.

## Model

| member | source | states |
|---|---|---|
| Geometry.CDiv | include/deeplocalizer/tagger/Tag.h:62-67 | `/` on C++ `int` truncates toward zero: for a non-negative dividend it is Euclidean division, for a negative one it is minus the quotient of the magnitudes |
| Geometry.ConstantValues | include/deeplocalizer/tagger/deeplocalizer_tagger.h:7-15 | tag size 64×64, `TAG_CENTER` (32,32), `MAX_TRANSLATION` 8, `MIN_TRANSLATION` −8, `MIN_AROUND_WRONG` 32, `MAX_AROUND_WRONG` 112 |
| Geometry.TagBoxForCenter | include/deeplocalizer/tagger/deeplocalizer_tagger.h:24-26 | the box for a centre is tag-sized |
| Geometry.TagBoxForCenterRoundTrip | include/deeplocalizer/tagger/deeplocalizer_tagger.h:24-26 | `tagBoxForCenter(p)` is (p.x−32, p.y−32, 64, 64), its centre (x+w/2, y+h/2) is exactly `p` and it contains `p`; a tag-sized box is the box of its own centre |
| Geometry.ClampOrigin | source/tagger/deeplocalizer_tagger.cpp:9-12 | one axis of the clamp: an origin already inside is kept, a negative one becomes 0, a box reaching the far edge is moved to end one pixel before it; the result is inside whenever extent+1 ≤ limit and negative whenever extent ≥ limit |
| Geometry.SubimageRoi | source/tagger/deeplocalizer_tagger.cpp:5-12 | the region has width w+2·border and height h+2·border: only the origin is adjusted |
| Geometry.SubimageRoiFits | source/tagger/deeplocalizer_tagger.cpp:3-14 | when the expanded box is narrower and lower than the image the region fits with x+w < cols and y+h < rows; when it is as wide or as high the crop fails; with border 0 a box strictly inside the image is returned unchanged |
| Geometry.GetSubimage | source/tagger/deeplocalizer_tagger.cpp:3-14 | the field-by-field updates produce exactly the crop of `SubimageRoi` (border defaulting to 0, include/deeplocalizer/tagger/deeplocalizer_tagger.h:21-22), and a successful crop fits the image |
| Tags.EnumValue | include/deeplocalizer/tagger/Tag.h:23-28 | the enumerators have the values 0..3 in declaration order |
| Tags.ExactlyOneKind | include/deeplocalizer/tagger/Tag.h:49-60 | exactly one of `isTag`, `isNoTag`, `isExclude`, `isBeeWithoutTag` holds for every tag |
| Tags.DefaultTag | include/deeplocalizer/tagger/Tag.h:80-83 | `Tag()` has type `IsTag` (the field default), no ellipse and the drawn id |
| Tags.NewTag | source/tagger/Tag.cpp:66-77 | `Tag(Rect)` and `Tag(Rect, ellipse)` keep the box, ellipse and drawn id and have type `IsTag` |
| Tags.CenterBoxAtEllipse | source/tagger/Tag.cpp:13-23 | the result is the 64×64 box centred at (bb.x + ell.x, bb.y + ell.y) |
| Tags.CenterBox | source/tagger/Tag.cpp:25-31 | the result is 64×64 with the same centre as the input; a 64×64 box is returned unchanged |
| Tags.CenterBoxIdempotent | source/tagger/Tag.cpp:25-31 | `centerBox` is idempotent and equals `tagBoxForCenter` of the box's centre |
| Tags.FromEllipse | source/tagger/Tag.cpp:56-59 | the tag around a chosen ellipse is a true tag, 64×64, centred on the ellipse, with the stored ellipse centre reset to (32,32) |
| Tags.FromPipelineTag | source/tagger/Tag.cpp:47-64 | with candidates, the tag is built around the first candidate that no other beats under `<` (a later one replaces the kept one only when strictly greater); with none, box = `centerBox(box)`, no ellipse, type `NoTag`; the box is always 64×64 |
| Tags.GuessIsTag | source/tagger/Tag.cpp:79-85 | the result is `IsTag` iff an ellipse is present with vote > threshold, and `NoTag` otherwise (overwriting `Exclude` and `BeeWithoutTag`); nothing but the type changes; the default threshold is 1200 (include/deeplocalizer/tagger/Tag.h:36, 71) |
| Tags.ToggleIsTag | source/tagger/Tag.cpp:105-111 | `IsTag` and `NoTag` are swapped, `Exclude` and `BeeWithoutTag` are left alone, and nothing but the type changes |
| Tags.ToggleIsTagInvolution | source/tagger/Tag.cpp:105-111 | toggling twice is the identity |
| Tags.TagEqualsMeaning | source/tagger/Tag.cpp:113-125 | with ellipses on both sides, `==` is equality of everything but the id; with no ellipse on either side tags are always equal (box and type ignored); with an ellipse on one side only they differ |
| Tags.TagEqualsIsEquivalence | source/tagger/Tag.cpp:113-125 | `operator==` is reflexive, symmetric and transitive |
| Images.ImageDesc.SavePath | source/tagger/Image.cpp:117-121 | the save path is the file name, a dot and the extension, so the default extension ".desc" (include/deeplocalizer/tagger/Image.h:48) gives "<file>..desc" |
| Images.ImageDesc.AddTag | source/tagger/Image.cpp:43-49 | one tag is appended at the end; earlier tags, file name and extension are unchanged |
| Images.ImageDesc.SetTags | source/tagger/Image.cpp:52-54 | the whole tag list is replaced; nothing else changes |
| Images.ImageDesc.SetSavePathExtension | source/tagger/Image.cpp:113-115 | only the save extension changes |
| Images.NewImageDesc | source/tagger/Image.cpp:23-30 | a new descriptor has the given file name and tags and the default save extension |
| Images.DescEqualsIgnoresExtension | source/tagger/Image.cpp:57-60 | `ImageDesc ==` does not compare the save extension, and a descriptor never equals itself with one more tag |
| Images.EncodeTags | source/tagger/Image.cpp:178-186 | the "tags" array holds one encoded tag per tag, in order |
| Images.DecodeTags | source/tagger/Image.cpp:188-194 | decoding succeeds iff every element decodes, and then yields the decoded tags in order; otherwise the error is a malformed tag |
| Images.DescJsonRoundTrip | source/tagger/Image.cpp:178-194 | `from_json(to_json(d))` equals `d` under `operator==` and has the default save extension, given the tag round trip asserted in test/TestSerialization.cpp:23-32 |
| Images.ToJson | source/tagger/Image.cpp:178-186 | the loop builds exactly the document {"filename", "tags"} of `DescJson` |
| Images.FromJson | source/tagger/Image.cpp:188-194 | the loop decodes exactly as `DescFromJson`: the first undecodable tag fails the whole descriptor |
| Images.DecodeTagsErrExtends | source/tagger/Image.cpp:190-192 | a tag that fails to decode in a prefix fails the whole array |
| Images.Save | source/tagger/Image.cpp:122-127 | after saving, the save path exists and every file that existed still does |
| Images.SaveThenLoad | source/tagger/Image.cpp:122-134 | what `save` writes, `load` reads back as an equal descriptor |
| Images.DescForPath | source/tagger/Image.cpp:99-109 | a missing path or an unreadable side-file is an error; without a side-file the descriptor is fresh, with the requested extension; with one it is the loaded descriptor renamed to the path, so its extension reverts to the default (source/tagger/Image.cpp:129-134) |
| Images.FromPaths | source/tagger/Image.cpp:96-111 | one descriptor per path, in order, each named by its path; the first missing path or bad side-file is the error returned |
| Images.LoadImage | source/tagger/Image.cpp:139-142 | loading an image fails iff its file is missing, and keeps the file name |
| Images.ImageEqualsMeaning | source/tagger/Image.cpp:160-175 | different names are never equal; two empty matrices of one name are; otherwise rows, cols, dims and every byte must agree; the relation is an equivalence |
| TrainData.NewTrainDatum | include/deeplocalizer/tagger/TrainDatum.h:14-15 | the constructor stores its five arguments; the description defaults to "" |
| TrainData.ParseFormat | source/tagger/Dataset.cpp:11-19 | "images" gives Images, "hdf5" gives HDF5, and every other string gives none |
| TrainData.ParseFormatRejects | source/tagger/Dataset.cpp:11-19 | "lmdb" and "all" (advertised in source/tagger/generate_dataset.cpp:30) are rejected, and no string yields DevNull, All or LMDB |
| DataWriters.ImageFileName | include/deeplocalizer/tagger/DataWriter.h:39-41 | the image name of a sample is its description followed by ".jpeg" |
| DataWriters.ToFilenameLabel | include/deeplocalizer/tagger/DataWriter.h:42-44 | the label pair is that file name and the sample's taginess |
| DataWriters.ImageFiles | source/tagger/DataWriter.cpp:42-49 | one image per sample, in batch order, written under the output directory and the last component of its file name |
| DataWriters.LabelLines | source/tagger/DataWriter.cpp:51-58 | one label line per sample, in batch order: the output directory joined with the whole file name, and the taginess |
| DataWriters.LabelNamesImageFile | source/tagger/DataWriter.cpp:42-58 | when the description has no '/', the label line names exactly the image file written |
| DataWriters.LabelMissesImageFile | source/tagger/DataWriter.cpp:42-58 | when it has one, they differ: description "a/b" writes "out/b.jpeg" but lists "out/a/b.jpeg" |
| DataWriters.ImageWriter.constructor | source/tagger/DataWriter.cpp:29-36 | the label file is `<dir>/<last component of dir>` with extension ".txt"; nothing is written yet |
| DataWriters.ImageWriter.Write | source/tagger/DataWriter.cpp:38-41 | the writer takes the batch: all images of the batch are written, then all label lines, both in batch order (`ImagesWrote`) |
| DataWriters.ImageWriter.WriteImages | source/tagger/DataWriter.cpp:42-49 | the loop appends exactly `ImageFiles` of the batch and writes no label |
| DataWriters.ImageWriter.WriteLabelFile | source/tagger/DataWriter.cpp:51-58 | the loop appends exactly `LabelLines` of the batch and writes no image |
| DataWriters.Puts | source/tagger/DataWriter.cpp:106-119 | one record per sample of the batch |
| DataWriters.PutsGather | source/tagger/DataWriter.cpp:106-119 | the samples put are the batch read along `shuffledIndecies(n)` |
| DataWriters.PutsPermutes | source/tagger/DataWriter.cpp:106-119 | the samples put are the batch's samples, each exactly as often as it occurs in the batch |
| DataWriters.PutsEverySample | source/tagger/DataWriter.cpp:106-119 | one record per sample, with ids `_id`, `_id`+1, … in order; the records hold exactly the batch's samples, each as often as in the batch (equal multisets), so every sample is put and every record holds a sample of the batch, because `shuffledIndecies` is a permutation |
| DataWriters.CommitsBeforeShape | source/tagger/DataWriter.cpp:121-126 | inside the loop there are ⌊(n−1)/1024⌋ commits and the k-th follows record 1024(k+1)+1 |
| DataWriters.CommitSchedule | source/tagger/DataWriter.cpp:121-128 | the first transaction holds 1025 records, later ones 1024, and a final commit always closes the write, even an empty one |
| DataWriters.LMDBWriter.constructor | source/tagger/DataWriter.cpp:60-65 | a new writer has `_id` 0 and has put and committed nothing |
| DataWriters.LMDBWriter.Write | source/tagger/DataWriter.cpp:90-130 | the batch is put in `shuffledIndecies` order under ids `_id`, `_id`+1, … (keys byte-swapped); `_id` grows by the batch size, so ids across calls are consecutive; commits follow `CommitPoints` (`LmdbWrote`) |
| DataWriters.ShardNameInjective | source/tagger/DataWriter.cpp:201-206 | different counters give different shard names |
| DataWriters.IndexLineOfShard | source/tagger/DataWriter.cpp:196 | the index line of shard k is the last component of the format path, "_k" and ".hdf5" |
| DataWriters.FlattenLength | source/tagger/DataWriter.cpp:219-227 | full shards of `capacity` samples hold `|shards|·capacity` samples |
| DataWriters.FlattenPrefix | source/tagger/DataWriter.cpp:219-227 | the samples of the first k shards come first |
| DataWriters.FlattenBlock | source/tagger/DataWriter.cpp:219-227 | shard k holds the samples between the first k and the first k+1 shards |
| DataWriters.ShardCount | source/tagger/DataWriter.cpp:219-227 | there are as many shards as full blocks of accepted samples, and the buffer holds the remainder |
| DataWriters.ShardIsBlock | source/tagger/DataWriter.cpp:219-227 | shard k holds exactly accepted samples k·capacity up to (k+1)·capacity |
| DataWriters.MaxBufferSizeFits | source/tagger/DataWriter.cpp:216 | `_max_buffer_size` = ⌊2^29 / (size·4)⌋ is the largest count that fits the budget, at least 1 iff one sample fits; 32768 for 64×64 patches; the bound 2^29 is `MAX_HDF5_FILE` of include/deeplocalizer/tagger/DataWriter.h:59 |
| DataWriters.Capacity | source/tagger/DataWriter.cpp:223-226 | a buffer size of 0 flushes on every push, so a shard then holds one sample |
| DataWriters.BatchSize | source/tagger/DataWriter.cpp:211-216 | once fixed, the size stays; else an empty first batch fails (`at(0)` throws), a zero-sized first sample fails (division by zero), and otherwise the first sample's size is taken |
| DataWriters.MatchingPrefix | source/tagger/DataWriter.cpp:219-222 | the leading samples of the fixed size, ending at the first that differs |
| DataWriters.PushKeepsConsistent | source/tagger/DataWriter.cpp:223-226 | buffering a sample and flushing a full buffer as the next numbered shard keeps the writer invariant |
| DataWriters.HDF5Writer.constructor | include/deeplocalizer/tagger/DataWriter.h:64-70 | a new writer has an empty buffer and `_file_id`, `_mat_size` 0; the format is `<dir>/<last component>` and the index file adds ".txt"; the constructor body is at source/tagger/DataWriter.cpp:146-152 |
| DataWriters.HDF5Writer.NextFilename | source/tagger/DataWriter.cpp:201-206 | returns `<format>_k.hdf5` for the current counter k, then increments it |
| DataWriters.HDF5Writer.WriteBufferToFile | source/tagger/DataWriter.cpp:190-199 | the buffer becomes the next numbered shard, its file name is appended to the index, and the buffer is cleared |
| DataWriters.HDF5Writer.Write | source/tagger/DataWriter.cpp:208-228 | the first batch fixes size, rows and cols from `at(0)` (an empty or zero-sized first batch fails); the accepted samples grow by the matching prefix; a later sample of another total aborts with the mismatch (rows and cols not compared); shards and buffer keep the invariant (buffer shorter than the maximum, files numbered 0, 1, …); a size error leaves size, shards, buffer and accepted samples as they were; shards are only ever added (`Hdf5Wrote`) |
| DataWriters.HDF5Writer.FixShape | source/tagger/DataWriter.cpp:211-217 | size, rows, cols and `_max_buffer_size` are set from the first sample |
| DataWriters.HDF5Writer.PushAll | source/tagger/DataWriter.cpp:219-227 | the loop accepts exactly the matching prefix and fails on the first sample of another size |
| DataWriters.HDF5Writer.Push | source/tagger/DataWriter.cpp:223-226 | one sample is accepted and the invariant kept |
| DataWriters.HDF5Writer.Close | source/tagger/DataWriter.cpp:230-235 | the destructor writes a non-empty buffer as one last shard and writes nothing for an empty one; afterwards the shards hold every accepted sample |
| DataWriters.AllFormatWriter.constructor | source/tagger/DataWriter.cpp:135-139 | an LMDB writer and an image writer on the same directory, both fresh |
| DataWriters.AllFormatWriter.Write | source/tagger/DataWriter.cpp:141-144 | the same batch goes to the LMDB writer, then to the image writer, each with its whole effect (`LmdbWrote`, `ImagesWrote`) |
| DataWriters.DevNullWriter.Write | include/deeplocalizer/tagger/DataWriter.h:74-76 | the null writer takes the batch and does nothing with it |
| DataWriters.FromSaveFormat | source/tagger/DataWriter.cpp:13-27 | All, HDF5, Images and LMDB get their writers, everything else (DevNull) the null writer; each is fresh and empty and has taken no batch |
| DataWriters.WriteTo | source/tagger/DataWriter.cpp:90-144 | the virtual `write` dispatches to the writer's own, which takes exactly this batch (`Batches()` grows by it) with that writer's whole effect (`Wrote`): puts, ids and commits for LMDB, images and labels for the image writer, both for All, the size check, accepted prefix, errors and shards for HDF5, nothing for the null writer; of the writers' errors only HDF5's size errors are modelled; the writers' own `write` bodies are at source/tagger/DataWriter.cpp:38-41 and 208-228, the null writer's at include/deeplocalizer/tagger/DataWriter.h:74-76 |
| LmdbKeys.SwapReversesBytes | source/tagger/DataWriter.cpp:77-88 | `swap` moves byte k of the id to position 7−k |
| LmdbKeys.SwapInvolution | source/tagger/DataWriter.cpp:77-88 | `swap(swap(i)) == i` |
| LmdbKeys.SwapInjective | source/tagger/DataWriter.cpp:77-88 | distinct ids get distinct keys, and only they do |
| LmdbKeys.StoredKeyIsBigEndian | source/tagger/DataWriter.cpp:110-115 | on a little-endian host the eight key bytes in memory are the big-endian encoding of the id |
| LmdbKeys.KeyOrderIsIdOrder | source/tagger/DataWriter.cpp:110-117 | memcmp order of the stored keys is exactly numeric order of the ids, so `MDB_APPEND` sees ascending keys |
| Shuffling.Pick | include/deeplocalizer/tagger/utils.h:85 | the step of the model's pass at position i swaps with a position at most i |
| Shuffling.Range | include/deeplocalizer/tagger/utils.h:80-84 | the filling loop yields 0, 1, …, n−1 |
| Shuffling.SwapAt | include/deeplocalizer/tagger/utils.h:85 | a swap exchanges two positions and keeps every other |
| Shuffling.ShuffledIndices | include/deeplocalizer/tagger/utils.h:79-87 | the loop and the in-place shuffle compute `Shuffled(n, engine)`, which depends on n alone because the engine is default-constructed on every call (line 85) |
| Shuffling.Shuffle | include/deeplocalizer/tagger/utils.h:85 | the in-place shuffle of the array performs exactly the model's pass over the abstract engine: the swap steps from the last position down to 1 |
| Shuffling.SwapAtPermutes | include/deeplocalizer/tagger/utils.h:85 | a swap keeps the multiset of entries |
| Shuffling.ShuffleStepsPermutes | include/deeplocalizer/tagger/utils.h:85 | any run of swap steps keeps the multiset of entries |
| Shuffling.RangeCounts | include/deeplocalizer/tagger/utils.h:80-84 | each of 0..n−1 occurs once in the filled vector and nothing else occurs |
| Shuffling.ShuffledIsPermutation | include/deeplocalizer/tagger/utils.h:79-87 | `shuffledIndecies(n)` has length n and is a permutation of 0..n−1: every value below n occurs, nothing else does, and no value repeats |
| Shuffling.ShuffledInRange | include/deeplocalizer/tagger/utils.h:79-87 | every entry indexes a vector of n elements |
| Shuffling.GatherRange | include/deeplocalizer/tagger/utils.h:80-84 | reading a vector along 0, 1, …, n−1 gives it back |
| Shuffling.GatherSwapPermutes | include/deeplocalizer/tagger/utils.h:85 | reading a vector along swapped indices keeps its multiset |
| Shuffling.GatherStepsPermutes | include/deeplocalizer/tagger/utils.h:85 | reading a vector along indices shuffled by any run of swap steps keeps its multiset |
| Shuffling.GatherShuffledPermutes | include/deeplocalizer/tagger/utils.h:79-87 | reading a vector along `shuffledIndecies(n)` gives each element exactly as often as it occurs |
| Utils.DivDiv | include/deeplocalizer/tagger/utils.h:65-67 | truncating by a coarser unit directly equals truncating in two steps, so the three `duration_cast`s agree |
| Utils.EtaDecomposition | include/deeplocalizer/tagger/utils.h:64-67 | for a non-negative ETA, h is whole hours, 0 ≤ m < 60, 0 ≤ s < 60, and 3600h + 60m + s is the ETA in whole seconds |
| Utils.EtaText | include/deeplocalizer/tagger/utils.h:68-75 | the text ends with the seconds and "s" |
| Utils.EtaFields | include/deeplocalizer/tagger/utils.h:65-67 | hours are zero below an hour, minutes are zero below a minute, and seconds are the ETA modulo 60 |
| Utils.EtaTextShape | include/deeplocalizer/tagger/utils.h:68-75 | below a minute only seconds are printed, below an hour minutes and seconds, otherwise hours, minutes and seconds |
| Utils.Assert | include/deeplocalizer/tagger/utils.h:15-36 | `ASSERT` throws iff its condition is false; in a release build the thrown string is the message, in a debug build it starts with "Assertion `" and ends with the message |
| Slicing.Slices | source/tagger/TrainsetGenerator.cpp:182-193 | `count` slices, slice i being [i·per, (i+1)·per) except that the last ends at n; the same slicing appears at source/tagger/preprocess.cpp:186-198 |
| Slicing.SlicesTile | source/tagger/TrainsetGenerator.cpp:182-193 | the first slice starts at 0, each ends where the next starts, none is reversed, and the last ends at n; the same slicing appears at source/tagger/preprocess.cpp:186-198 |
| Slicing.SlicesPartition | source/tagger/TrainsetGenerator.cpp:182-193 | every index below n lies in exactly one slice; the same slicing appears at source/tagger/preprocess.cpp:186-198 |
| Slicing.SliceEndsBeforeLater | source/tagger/TrainsetGenerator.cpp:182-193 | an earlier slice ends no later than a later one starts |
| Slicing.OwningSlice | source/tagger/TrainsetGenerator.cpp:182-193 | the slice of index k is k / per, or the last slice past the full ones |
| Slicing.SliceSizesAddUp | source/tagger/TrainsetGenerator.cpp:182-193 | the slice sizes add up to n; the same slicing appears at source/tagger/preprocess.cpp:186-198 |
| Slicing.PrefixSum | source/tagger/preprocess.cpp:186-198 | the first m slices hold exactly the indices below the end of slice m−1 |
| Strings.NatToString | source/tagger/DataWriter.cpp:204 | a counter prints as at least one decimal digit |
| Strings.IntToString | include/deeplocalizer/tagger/utils.h:70-75 | a signed value prints as its magnitude's digits, with a leading '-' when negative |
| Strings.NatToStringReadsBack | source/tagger/DataWriter.cpp:204 | the printed digits read back as the number printed |
| Strings.NatToStringInjective | source/tagger/DataWriter.cpp:204 | different numbers print differently |
| Strings.Join | source/tagger/DataWriter.cpp:44-46 | `dir / name` starts with `dir`, ends with `name`, and inserts at most one separator |
| Strings.FileName | source/tagger/DataWriter.cpp:196 | `filename()` is the part after the last '/', and has no separator |
| Strings.FileNameOfJoin | source/tagger/DataWriter.cpp:44-47 | the file name of `dir / name` is `name` when `name` has no separator |
| Strings.FileNameOfSuffix | source/tagger/DataWriter.cpp:44-47 | after a directory prefix, the file name is the separator-free rest |
| Strings.FileNameOfAppend | source/tagger/DataWriter.cpp:196-204 | appending separator-free text extends the file name by that text |
| Strings.DotSuffixLength | source/tagger/preprocess.cpp:77-82 | the part from the last '.' on, which holds no other '.', or nothing when there is no '.' |
| Strings.DropExtension | source/tagger/DataWriter.cpp:33-34 | `replace_extension()` keeps a prefix of the path; also used by `addWb` at source/tagger/preprocess.cpp:79 |
| FileSystems.FileSystem.WriteJson | include/deeplocalizer/tagger/utils.h:40-47 | `safe_serialization` leaves exactly the new document at the path, keeps every other file and document |
| TrainsetGeneration.TagBoxesAppend | source/tagger/TrainsetGenerator.cpp:70-78 | collecting boxes distributes over concatenation, so the boxes keep the tags' order |
| TrainsetGeneration.TagBoxesOfOne | source/tagger/TrainsetGenerator.cpp:72-76 | one tag contributes its box exactly when it is an `IsTag` tag |
| TrainsetGeneration.TagBoxesAreTrueTags | source/tagger/TrainsetGenerator.cpp:70-78 | the boxes are exactly those of the `IsTag` tags; there are none iff no tag is a true tag |
| TrainsetGeneration.GetAllTagBoxes | source/tagger/TrainsetGenerator.cpp:70-78 | the loop returns exactly `TagBoxes` of the tags |
| TrainsetGeneration.TagCenters | source/tagger/TrainsetGenerator.cpp:100-105 | one centre per box, (x + w/2, y + h/2) |
| TrainsetGeneration.CentersOfTagSizedBoxes | source/tagger/TrainsetGenerator.cpp:100-105 | a 64×64 box is the tag box of its centre |
| TrainsetGeneration.DrawCoordinate | source/tagger/TrainsetGenerator.cpp:86-87 | `uniform_int_distribution(0, hi)` draws from [0, hi], the upper bound included |
| TrainsetGeneration.PointAt | source/tagger/TrainsetGenerator.cpp:125-126 | sampled centres lie in [0, cols] × [0, rows]; the distributions are declared at lines 86-94 |
| TrainsetGeneration.Description | source/tagger/TrainsetGenerator.cpp:142-143 | the description starts with the image file name and "_" (followed by x, y and taginess) |
| TrainsetGeneration.SampleAt | source/tagger/TrainsetGenerator.cpp:124-146 | a point is kept iff taginess² + draw ≥ 1 − acceptance rate; a kept sample is centred at the drawn point, is cut by `getSubimage` around `tagBoxForCenter` (border 32 when rotated), has angle 0 unless `use_rotation` and taginess ≥ 0.8, and is described as filename_x_y_taginess |
| TrainsetGeneration.RoundPrefix | source/tagger/TrainsetGenerator.cpp:124-147 | a round yields at most one sample per point, each well formed |
| TrainsetGeneration.RoundPrefixFailureSticks | source/tagger/TrainsetGenerator.cpp:124-147 | a crop failure inside a round fails the whole round |
| TrainsetGeneration.RoundsOutcome | source/tagger/TrainsetGenerator.cpp:118-148 | the quota loop only appends, stops only once at least `sample_rate × |true boxes|` were appended, overshoots by less than one round, and every appended sample is well formed |
| TrainsetGeneration.ProcessOutcome | source/tagger/TrainsetGenerator.cpp:80-148 | `process` appends at least the quota and less than quota + |tags| (or nothing), every sample well formed; a missing image is the error |
| TrainsetGeneration.NoTrueTagsNoSamples | source/tagger/TrainsetGenerator.cpp:118-119 | with no `IsTag` tag the loop condition is false at once and nothing is appended |
| TrainsetGeneration.Rescaled | source/tagger/TrainsetGenerator.cpp:160-169 | the rescaled batch has one sample per sample |
| TrainsetGeneration.RescaledKeepsMetadata | source/tagger/TrainsetGenerator.cpp:160-169 | each rescaled sample keeps centre, angle and taginess, gets the resized pixels and loses its description (the default "") |
| TrainsetGeneration.PostProcessed | source/tagger/TrainsetGenerator.cpp:155-170 | at scale 1 the batch is untouched; otherwise its length is kept and centre and taginess kept, the description dropped |
| TrainsetGeneration.WrittenStep | include/deeplocalizer/tagger/TrainsetGenerator.h:69-76 | writing the next descriptor's batch extends the batches written in order |
| TrainsetGeneration.WrittenConcat | include/deeplocalizer/tagger/TrainsetGenerator.h:69-76 | the batches of adjacent descriptor ranges are the batches of their union |
| TrainsetGeneration.ParallelSlices | source/tagger/TrainsetGenerator.cpp:182-193 | `min(2·hc, n)` slices of n / workers descriptors, the last ending at n; n = 0 or hc = 0 divides by zero |
| TrainsetGeneration.Workers | source/tagger/TrainsetGenerator.cpp:182-183 | the worker count is `min(2·hc, n)` |
| TrainsetGeneration.WorkersShare | source/tagger/TrainsetGenerator.cpp:184-185 | with 1 ≤ workers ≤ n every worker gets at least one descriptor, so the `ASSERT` holds |
| TrainsetGeneration.ParallelSlicesCover | source/tagger/TrainsetGenerator.cpp:182-193 | the slices are contiguous, non-empty and cover all descriptors |
| TrainsetGeneration.TrainsetGenerator.constructor | source/tagger/TrainsetGenerator.cpp:21-33 | the writer and settings are kept; `samples_per_tag` 32, `wrong_samples_per_tag` 32, `max_intersection` 0.5; nothing is done or handed to the writer yet, and what the writer took before is recorded; the defaults are at include/deeplocalizer/tagger/TrainsetGenerator.h:36-42 |
| TrainsetGeneration.TrainsetGenerator.WithNullWriter | source/tagger/TrainsetGenerator.cpp:17-19 | the default generator writes to a fresh null writer that has taken no batch |
| TrainsetGeneration.TrainsetGenerator.SamplePoint | source/tagger/TrainsetGenerator.cpp:124-146 | the body of the inner loop computes exactly `SampleAt` |
| TrainsetGeneration.TrainsetGenerator.DrawRound | source/tagger/TrainsetGenerator.cpp:120-147 | one round appends exactly the samples `RoundPrefix` describes, or fails with its crop error |
| TrainsetGeneration.TrainsetGenerator.Process | source/tagger/TrainsetGenerator.cpp:80-149 | the entries before `start_size` are untouched and exactly the samples of `ProcessSpec` are appended |
| TrainsetGeneration.TrainsetGenerator.PostProcess | source/tagger/TrainsetGenerator.cpp:155-170 | the in-place loop leaves exactly `PostProcessed` |
| TrainsetGeneration.TrainsetGenerator.GenerateAndWrite | include/deeplocalizer/tagger/TrainsetGenerator.h:70-73 | one descriptor's samples are generated into an empty batch and post-processed, and the writer's log grows by exactly that batch; a descriptor that cannot be sampled leaves the writer untouched; only the HDF5 writer rejects a batch |
| TrainsetGeneration.TrainsetGenerator.ProcessOne | include/deeplocalizer/tagger/TrainsetGenerator.h:70-75 | one descriptor's batch is handed to the writer once, so the generator's log of handed batches, which `Valid` ties to the writer's own log, grows by exactly that batch; `incrementDone` counts it only when the writer took it |
| TrainsetGeneration.TrainsetGenerator.ProcessRange | include/deeplocalizer/tagger/TrainsetGenerator.h:66-77 | the writer's log grows by exactly the batches handed over, one per descriptor of [begin, end) in order, each holding only that descriptor's samples (`Written`); the done counter counts the batches the writer took; all of them unless an error stops the loop |
| TrainsetGeneration.TrainsetGenerator.ProcessParallel | source/tagger/TrainsetGenerator.cpp:172-198 | `_n_todo` is n and `_n_done` counts the batches the writer took; no descriptors or hc = 0 is a division by zero; otherwise the writer's log grows by exactly every descriptor's batch, in descriptor order |
| TrainsetGeneration.TrainsetGenerator.RunWorkers | source/tagger/TrainsetGenerator.cpp:186-196 | the slices' workers together hand over the batches of all descriptors in order, and `Valid` keeps the handed batches equal to what the writer's log gained |
| ManualTagging.CountTrue | source/tagger/ManuallyTagger.cpp:85 | the number of set flags is at most the number of flags |
| ManualTagging.CountTrueSet | source/tagger/ManuallyTagger.cpp:151-152 | setting one flag raises the count by one exactly when the flag was clear |
| ManualTagging.CountTrueNoneSet | source/tagger/ManuallyTagger.cpp:81-83 | a fresh all-false flag vector counts zero, matching `_n_done = 0` |
| ManualTagging.Select | source/tagger/ManuallyTagger.cpp:64-68 | the selected descriptors all have the requested finished status and are no more than the input |
| ManualTagging.SelectSplits | source/tagger/ManuallyTagger.cpp:64-68 | the finished and the unfinished selections together are a permutation of the descriptors |
| ManualTagging.DoneFirstSorted | source/tagger/ManuallyTagger.cpp:64-68 | the sort's result is a permutation of the descriptors in which no unfinished descriptor precedes a finished one |
| ManualTagging.SortDoneFirst | source/tagger/ManuallyTagger.cpp:64-68 | the two-pass loop computes `DoneFirst` |
| ManualTagging.DescsForPaths | source/tagger/Image.cpp:86-110 | a successful rebuild has one descriptor per path; used by `init` at source/tagger/ManuallyTagger.cpp:55-57 |
| ManualTagging.DescsForPathsMeaning | source/tagger/ManuallyTagger.cpp:55-57 | the rebuild succeeds iff every path loads, with each path's descriptor at its position, and otherwise fails with the error of the first failing path |
| ManualTagging.Prepared | source/tagger/ManuallyTagger.cpp:59-63 | success keeps the length; a failure names a file that does not exist |
| ManualTagging.PreparedMeaning | source/tagger/ManuallyTagger.cpp:59-63 | the first loop succeeds iff every image file exists, and then only switches each extension to `tagger.json` |
| ManualTagging.PreparedFailsOnPrefix | source/tagger/ManuallyTagger.cpp:59-63 | the first missing file of a prefix aborts the whole loop with that error |
| ManualTagging.PrepareAll | source/tagger/ManuallyTagger.cpp:59-63 | the loop computes `Prepared` |
| ManualTagging.Resolve | source/tagger/ManuallyTagger.cpp:69-79 | a finished side-file wins (the result loads iff it parses, with its tags); else a `.proposal.json` side-file is loaded likewise; else the descriptor is kept; the extension always ends as `tagger.json` |
| ManualTagging.ResolvedAll | source/tagger/ManuallyTagger.cpp:69-80 | success keeps the length |
| ManualTagging.ResolvedAllMeaning | source/tagger/ManuallyTagger.cpp:69-80 | the second loop succeeds iff every descriptor resolves, gives each one's resolution in order, and every result saves to its finished side-file |
| ManualTagging.ResolvedFailsOnPrefix | source/tagger/ManuallyTagger.cpp:69-80 | the first unreadable side-file of a prefix aborts the whole loop with that error |
| ManualTagging.ResolveAll | source/tagger/ManuallyTagger.cpp:69-80 | the loop computes `ResolvedAll` |
| ManualTagging.CollectFilenames | source/tagger/ManuallyTagger.cpp:58-79 | `_image_paths` is rebuilt as the descriptors' file names, in order |
| ManualTagging.Count | source/tagger/ManuallyTagger.cpp:85 | the loop counts the set flags |
| ManualTagging.LoadStart | source/tagger/ManuallyTagger.cpp:55-57 | after a load the descriptors come from the recorded paths (the first failing one is the error), else the held descriptors are used |
| ManualTagging.InitSpecSession | source/tagger/ManuallyTagger.cpp:54-87 | `init` leaves a coherent session: paths equal the descriptors' file names, every descriptor saves to `tagger.json`, one flag per descriptor, `_n_done` counts the flags; the recorded flags survive iff their number matches, otherwise all are false and the counter 0 |
| ManualTagging.InitSpecMissingFile | source/tagger/ManuallyTagger.cpp:59-61 | a missing image file makes `init` fail ("Could not open file") |
| ManualTagging.InitSpecStartsClean | source/tagger/ManuallyTagger.cpp:54-87 | images that exist and have no side-files always start, in their original order, only switched to `tagger.json` |
| ManualTagging.CleanStaysInPlace | source/tagger/ManuallyTagger.cpp:64-80 | such descriptors are neither reordered by the sort nor changed by resolving |
| ManualTagging.RunInit | source/tagger/ManuallyTagger.cpp:54-87 | the steps of `init` compute `InitSpec`, and a success is coherent |
| ManualTagging.AsUnsigned | source/tagger/ManuallyTagger.cpp:167 | the conversion to `unsigned long` stays below 2^64 and keeps any value already in range |
| ManualTagging.AsBools | source/tagger/ManuallyTagger.cpp:168-171 | the flags read succeed iff every element is a boolean, one flag per element |
| ManualTagging.AsStrings | source/tagger/ManuallyTagger.cpp:173-176 | the paths read succeed iff every element is a string, one path per element |
| ManualTagging.ParseState | source/tagger/ManuallyTagger.cpp:165-179 | a parsed index is below 2^64, and a document that is not an object is rejected |
| ManualTagging.StateJsonRoundTrip | source/tagger/ManuallyTagger.cpp:156-179 | `from_json(to_json())` restores the index, the flags and the paths |
| ManualTagging.ReadState | source/tagger/ManuallyTagger.cpp:165-179 | the reads of `from_json`, in order, compute `ParseState` |
| ManualTagging.SaveDescs | source/tagger/ManuallyTagger.cpp:91-95 | after saving every descriptor each one's side-file exists and no earlier file is lost |
| ManualTagging.ManuallyTagger.constructor | include/deeplocalizer/tagger/ManuallyTagger.h:90-100 | the member initialisers: no flags, counter 0, no paths, index 0, nothing on screen, not loaded from a file |
| ManualTagging.ManuallyTagger.Create | source/tagger/ManuallyTagger.cpp:26-34 | construction runs `init`: it fails exactly when `InitSpec` does and otherwise leaves its session, index 0 |
| ManualTagging.ManuallyTagger.Init | source/tagger/ManuallyTagger.cpp:54-87 | the session becomes `InitSpec` of the fields (or the error), the object stays valid, and the file system, save path, index and image are untouched |
| ManualTagging.ManuallyTagger.SaveTo | source/tagger/ManuallyTagger.cpp:100-102 | the progress document is written to the path and reads back as the index, flags and paths |
| ManualTagging.ManuallyTagger.SaveCurrent | source/tagger/ManuallyTagger.cpp:89-97 | the progress file, then the descriptor on screen; an index past the end throws after the progress file was written |
| ManualTagging.ManuallyTagger.Save | source/tagger/ManuallyTagger.cpp:89-98 | with `all_descs` the progress file and every descriptor are written and every image then counts as done; otherwise as `SaveCurrent` |
| ManualTagging.ManuallyTagger.SetSavePath | include/deeplocalizer/tagger/ManuallyTagger.h:67-69 | only the save path changes |
| ManualTagging.ManuallyTagger.ToJson | source/tagger/ManuallyTagger.cpp:156-162 | the document reads back as the index, flags and paths |
| ManualTagging.ManuallyTagger.LoadImageAt | source/tagger/ManuallyTagger.cpp:123-134 | past the end only `outOfRange` is emitted; otherwise the index moves and, when the image file exists, the image and descriptor are shown and `loadedImage`, `firstImage` (index 0) and `lastImage` (last index) are emitted; a missing image file is the error |
| ManualTagging.ManuallyTagger.LoadNextImage | source/tagger/ManuallyTagger.cpp:114-116 | `loadImage` of the next index |
| ManualTagging.ManuallyTagger.LoadLastImage | source/tagger/ManuallyTagger.cpp:118-121 | nothing changes on the first image; otherwise `loadImage` of the previous index |
| ManualTagging.ManuallyTagger.LoadCurrentImage | source/tagger/ManuallyTagger.cpp:136-138 | `loadImage` of the current index |
| ManualTagging.ManuallyTagger.DoneTagging | source/tagger/ManuallyTagger.cpp:144-154 | past the end nothing changes and `at` throws; otherwise the descriptor, then the progress file with the old flags, then the descriptor on screen are saved, the flag is set, the counter raised by one, `progress` emitted and the image counts as done; an index on screen past the end throws after the two writes |
| ManualTagging.ManuallyTagger.MarkDone | source/tagger/ManuallyTagger.cpp:151-153 | the flag is set, the counter raised, the progress emitted, and the counter stays an upper bound of the set flags |
| ManualTagging.ManuallyTagger.DoneTaggingCurrent | source/tagger/ManuallyTagger.cpp:140-142 | `doneTagging` of the image on screen |
| ManualTagging.ManuallyTagger.FromJson | source/tagger/ManuallyTagger.cpp:165-179 | a default session whose index, flags and paths come from the document; a malformed document is the error |
| ManualTagging.ManuallyTagger.Load | source/tagger/ManuallyTagger.cpp:104-113 | a file that is not JSON or not a progress document is the error; otherwise `init` runs from the recorded paths and flags, keeping the recorded index |
| ManualTagging.ManuallyTagger.IsDone | include/deeplocalizer/tagger/ManuallyTagger.h:74-82 | an image counts as done only at an index below the number of descriptors or of flags: its finished side-file exists (the `isDone(desc)` overload, `Tagged`) or its flag is set |
| WholeImageEditing.EraseId | include/deeplocalizer/tagger/WholeImageWidget.h:66-71 | erasing never lengthens the list |
| WholeImageEditing.EraseIdMembership | include/deeplocalizer/tagger/WholeImageWidget.h:66-71 | a tag remains iff it was there and carries another id |
| WholeImageEditing.EraseIdConcat | include/deeplocalizer/tagger/WholeImageWidget.h:66-71 | erasing distributes over concatenation, so the remaining tags keep their order |
| WholeImageEditing.EraseIdSingle | include/deeplocalizer/tagger/WholeImageWidget.h:67-69 | one tag is dropped exactly when it carries the id |
| WholeImageEditing.EraseIdAbsent | include/deeplocalizer/tagger/WholeImageWidget.h:66-71 | a list without the id is left as it is |
| WholeImageEditing.EraseIdIdempotent | include/deeplocalizer/tagger/WholeImageWidget.h:64-72 | erasing the same id twice changes nothing the second time |
| WholeImageEditing.RemoveId | include/deeplocalizer/tagger/WholeImageWidget.h:66-71 | the `remove_if`/`erase` pass computes `EraseId` |
| WholeImageEditing.FirstContaining | source/tagger/WholeImageWidget.cpp:167-175 | the position found is that of the first tag whose box contains the point; none iff no box contains it |
| WholeImageEditing.ProcessedType | source/tagger/WholeImageWidget.cpp:52-54 | comparing the `bool` `isTag()` with `NoTag` (= 1) only fires for true tags and sets the type they already have, so the tag is unchanged |
| WholeImageEditing.WholeImageWidget.constructor | source/tagger/WholeImageWidget.cpp:24-37 | the widget holds the image's size and the descriptor's tags; nothing is waiting and nothing is deleted |
| WholeImageEditing.WholeImageWidget.EraseTag | include/deeplocalizer/tagger/WholeImageWidget.h:63-72 | the id is recorded as deleted and leaves the chosen list; the other list is untouched |
| WholeImageEditing.WholeImageWidget.CreateTag | source/tagger/WholeImageWidget.cpp:40-49 | no tag iff the point is closer than half a tag to the left or top edge or beyond width/height minus half a tag; otherwise a fresh true 64×64 tag centred on the point, inside the image, with the new id and no ellipse |
| WholeImageEditing.WholeImageWidget.GetTag | source/tagger/WholeImageWidget.cpp:166-181 | a found tag contains the point and is from one of the lists; a hit in the descriptor's tags wins over the waiting list; none iff no tag of either list contains the point |
| WholeImageEditing.WholeImageWidget.TagProcessed | source/tagger/WholeImageWidget.cpp:51-61 | a tag whose id was deleted changes nothing; otherwise the id leaves the waiting list, is recorded as deleted, and the tag is appended to the image's tags |
| WholeImageEditing.WholeImageWidget.MousePress | source/tagger/WholeImageWidget.cpp:144-164 | a click on a tag erases its id from both lists; elsewhere a new tag (Exclude with Control, else BeeWithoutTag with Alt, else IsTag) is appended if it fits, and nothing happens if it does not; `changed` is emitted unless nothing happened |
| Preprocessing.FormatToStr | source/tagger/preprocess.cpp:43-51 | the name is "jpeg" or "png" and holds neither '.' nor '/' |
| Preprocessing.ParseFormat | source/tagger/preprocess.cpp:312-320 | a format is recognised iff the string is exactly "png" or "jpeg" |
| Preprocessing.FormatRoundTrip | source/tagger/preprocess.cpp:43-51 | parsing a printed format gives it back, and printing a parsed format gives the string back; the parsing is at lines 312-320 |
| Preprocessing.DefaultCompression | source/tagger/preprocess.cpp:322-329 | the default compression of each format (95 for JPEG, 3 for PNG) lies in the range OpenCV accepts; the constants are at lines 73-75 |
| Preprocessing.PreprocessOptions.OpenCvCompression | source/tagger/preprocess.cpp:62-70 | the JPEG-quality flag iff the format is JPEG, the PNG-compression flag otherwise, with the configured value |
| Preprocessing.AddWb | source/tagger/preprocess.cpp:77-82 | the result extends the path with its extension removed |
| Preprocessing.DotSuffixOfDotted | source/tagger/preprocess.cpp:79-80 | the last '.' of a name ending in "." and a dot-free tail starts that tail |
| Preprocessing.AddWbExtension | source/tagger/preprocess.cpp:77-82 | the extension of `addWb(p, f)` is "." + the format, and removing it leaves p without its extension followed by "_wb" |
| Preprocessing.WbExtension | source/tagger/preprocess.cpp:79-80 | "_wb." followed by a dot-free, separator-free name is an extension whatever precedes it |
| Preprocessing.WorkerCount | source/tagger/preprocess.cpp:182 | `max(2·hc, 1)`: never zero and at least 2·hc |
| Preprocessing.Share | source/tagger/preprocess.cpp:187 | `size / nb_cpus`: the full slices fit into the descriptors, and fewer descriptors than workers give 0 |
| Preprocessing.PreprocessSlices | source/tagger/preprocess.cpp:187-198 | one slice per worker, each within [0, n] |
| Preprocessing.PreprocessSlicesCover | source/tagger/preprocess.cpp:193-198 | the slices start at 0, end at n, are contiguous and their sizes add up to n |
| Preprocessing.PreprocessSlicesFewDescriptors | source/tagger/preprocess.cpp:187-198 | with fewer descriptors than workers every slice but the last is empty and the last holds all |
| Preprocessing.SliceWork | source/tagger/preprocess.cpp:186-198 | the two loops build one empty output list per worker and exactly the slices `PreprocessSlices` describes |
| Preprocessing.OutputsOf | source/tagger/preprocess.cpp:159-160 | the output names of a range of descriptors, one per descriptor in order |
| Preprocessing.SliceRunMeaning | source/tagger/preprocess.cpp:155-172 | a worker that finishes records the output names of a prefix of its slice, in order |
| Preprocessing.SliceRunStops | source/tagger/preprocess.cpp:155-166 | the images of that prefix exist and were written; a worker that stopped short met an existing image whose write failed, and skipped the rest of its slice |
| Preprocessing.SliceRunFails | source/tagger/preprocess.cpp:156-157 | a worker that throws met an image of its slice that does not exist |
| Preprocessing.SliceRunAllWritten | source/tagger/preprocess.cpp:155-172 | when every image of the slice exists and can be written the worker records all their output names |
| Preprocessing.ThreadWorker | source/tagger/preprocess.cpp:149-173 | the worker loop computes `SliceRun` of its slice |
| Preprocessing.RunSlices | source/tagger/preprocess.cpp:193-207 | one output list per slice when no worker throws |
| Preprocessing.FlattenLength | source/tagger/preprocess.cpp:88-94 | the count printed equals the number of lines written |
| Preprocessing.FlattenMembership | source/tagger/preprocess.cpp:89-94 | a path is a line of the output path file iff some worker recorded it |
| Preprocessing.WriteOutputPathfile | source/tagger/preprocess.cpp:86-100 | the lines are every list's paths, list after list, and the count is their number |
| Preprocessing.RunSlicesAllWritten | source/tagger/preprocess.cpp:193-207 | contiguous slices from 0 whose images all exist and can be written yield the output names of all those descriptors in order |
| Preprocessing.OutputsOfConcat | source/tagger/preprocess.cpp:193-198 | the outputs of adjacent ranges concatenate |
| Preprocessing.RunAllWritten | source/tagger/preprocess.cpp:175-208 | when every image exists and can be written the output path file lists every descriptor's output, in descriptor order, whatever the number of workers, and the count is the number of descriptors |
| Preprocessing.RunAllOutputs | source/tagger/preprocess.cpp:155-166 | every listed path is the output name of an existing descriptor and was written successfully |
| Preprocessing.RunSlicesOutputs | source/tagger/preprocess.cpp:155-166 | the same for any slicing |
| Preprocessing.SliceOutputs | source/tagger/preprocess.cpp:155-166 | the same for one worker |
| Preprocessing.RunSlicesEach | source/tagger/preprocess.cpp:200-203 | each slice's list is what that slice's worker produced |
| Preprocessing.PreprocessSpecOf | source/tagger/preprocess.cpp:175-211 | a successful run reports the flattened lists, their total as count and as `nb_done` |
| Preprocessing.RunSlicesErrSticks | source/tagger/preprocess.cpp:193-207 | once a worker throws, the outcome of the whole run is that error |
| Preprocessing.PreprocessSpecErr | source/tagger/preprocess.cpp:175-211 | a throwing worker makes `preprocess` fail with its error |
| Preprocessing.Preprocess | source/tagger/preprocess.cpp:175-211 | `preprocess` computes `PreprocessSpec`: the output path file and count of all workers, or the first worker's error |
| Preprocessing.RunWorkers | source/tagger/preprocess.cpp:193-207 | the workers run in slice order compute `RunSlices`, and `nb_done` counts the recorded paths |
| Preprocessing.BenchmarkFormats | source/tagger/preprocess.cpp:213-222 | JPEG qualities 75, 80, 85, 90 then PNG levels 9, 6, 3, 0 |
| Preprocessing.BenchmarkFormatsValid | source/tagger/preprocess.cpp:213-222 | every benchmarked setting is one OpenCV accepts and none is tried twice |
| Preprocessing.BenchmarkDirName | source/tagger/preprocess.cpp:254-256 | the directory name is non-empty and relative |
| Preprocessing.BenchmarkOptions | source/tagger/preprocess.cpp:251-256 | the setting's format and compression, the output directory `<dir>/<format>_c_<compression>`, every other option as given |
| Preprocessing.IntToStringInjective | source/tagger/preprocess.cpp:255 | different compressions print differently |
| Preprocessing.SignedDiffers | source/tagger/preprocess.cpp:255 | a non-negative number never prints like a negative one |
| Preprocessing.NegativeToStringInjective | source/tagger/preprocess.cpp:255 | different negative numbers print differently |
| Preprocessing.BenchmarkDirNameInjective | source/tagger/preprocess.cpp:254-256 | different settings get different directory names |
| Preprocessing.JoinInjective | source/tagger/preprocess.cpp:256 | `dir / name` is injective in relative names |
| Preprocessing.BenchmarkDirsDistinct | source/tagger/preprocess.cpp:250-261 | the eight benchmark runs write into eight different directories |
| Preprocessing.Benchmark | source/tagger/preprocess.cpp:245-261 | `benchmark` runs `preprocess` once per setting in the order of `BenchmarkFormats`, stopping at the first that throws |
| Preprocessing.RunSettings | source/tagger/preprocess.cpp:250-261 | the loop computes `RunInOrder` over the given settings |
| Preprocessing.RunSetting | source/tagger/preprocess.cpp:251-258 | one pass runs `preprocess` with the setting's options |
| Preprocessing.RunInOrderErrSticks | source/tagger/preprocess.cpp:250-261 | once a setting has thrown the later ones are never run |
| Preprocessing.RunInOrderMeaning | source/tagger/preprocess.cpp:250-261 | one report per setting, each that setting's run; or the error of the first setting that throws, every earlier one having completed |
| Preprocessing.Configure | source/tagger/preprocess.cpp:291-351 | in `main`'s order: the usage is printed iff help is asked or the path file or output directory is missing; otherwise the path file's descriptors are loaded first (line 300), and a failed load aborts with no exit status whatever the format; only after a successful load is the status 1 iff the format is neither "png" nor "jpeg"; a run has the options as given, the compression falling back to the format's default, thresholding on when a binary image is asked, and a relative output path file placed below the output directory |
| Preprocessing.ConfigureDefaults | source/tagger/preprocess.cpp:303-343 | with only the path file and output directory, and a path file that loads, the images are JPEG of quality 95 with a border, no thresholding, no equalisation, no benchmark, and the path file goes to `<output_dir>/images.txt`; the declared defaults are at lines 20-33 |

## Left out

- Pixel processing is not modelled: `rotateSubimage`, `cv::resize`, CLAHE, adaptive thresholding, `makeBorder` and the pixel content of `imread`/`imwrite`. An image is an opaque value with a size. Resizing is a caller-supplied function, and whether `imwrite` succeeds is an oracle keyed by the path and the write parameter.
- Floating point is left out. Taginess, angles, scale and the acceptance rate are `real`. The `exp` of the taginess, the acceptance draw and the FLANN nearest-tag search are supplied by a `Sampler` oracle. The progress-bar fraction and zoom and scroll scaling are left out.
- Randomness is left out: `Tag::generateId`, the uniform draws and the shuffle engine are parameters supplied by the caller.
- The clock is left out: ETA ticks and durations are parameters, and the duration returned by `preprocess` is not modelled.
- Threads run one after the other, in slice order, in `processParallel` and `preprocess`. Mutexes, the atomic `_n_done` and the per-iteration mutex of preprocess.cpp:199 are not modelled, so interleavings and data races are not captured.
- TrainsetGeneration.Rounds: the quota loop of `process` is bounded by a `fuel` number of rounds. A run that needs more rounds ends with an `OutOfRounds` error. The C++ loop has no bound and may run forever when the sampler never accepts.
- Calls into foreign storage are not modelled. `mdb_*` and `H5*` calls appear only through the logs they leave. `caffe::Datum`/`toCaffe`, `safe_serialization`'s temporary file, `parsePathfile`/`fromPathFile` and directory creation are left out.
- The JSON bodies of `Tag::to_json`/`from_json` are not part of this model. A `TagCodec` parameter stands for them and is required to round-trip. nlohmann's conversions are modelled only as far as the descriptor and progress documents use them.
- `operator<` of `pipeline::Ellipse` is not part of this model. The pipeline-tag constructor takes it as a parameter that must be a strict weak order, and keeps the first candidate no other beats.
- Strings.FileName: a path ending in '/' has the file name "" here, where boost gives ".".
- ManualTagging.DoneFirst: the comparator `isDone(*d1) > isDone(*d2)` is a strict weak order, but `std::sort` is not stable, so the order among equally finished descriptors is unspecified. The model picks the stable order, and its contract states only the permutation and the finished-first order.
- ManualTagging.ManuallyTagger: `_n_done` and `_image_idx + 1` are unbounded here. The C++ `unsigned long` values wrap at 2^64.
- ManualTagging.ManuallyTagger: the descriptors are values. The sharing of `ImageDescPtr` between the session, the window and the widget (aliasing) is not modelled.
- ManualTagging.Elements: iterating a JSON object is an error here. nlohmann would iterate its values.
- The GUI is left out: ManuallyTaggerWindow, painting, zooming and scrolling in WholeImageWidget, `TrainDatum::draw` and qt_helper. A click arrives already mapped to image coordinates, with its modifiers and the new tag's id.
- `PipelineWorker` and `ProposalGenerator` (work queues and callbacks) are not part of this model. `findEllipse` is therefore absent from the widget.
- The discrete sampling mode (`trueSamples`, `wrongSamples`, around-tag and uniform negatives) is left out, because only its declarations exist.
- The legacy copies source/Tag.cpp, source/ManuallyTagger.cpp and include/deeplocalizer/TrainsetGenerator.h are left out, because the source/tagger/ versions supersede them.
- Command-line entry points are left out: generate_dataset.cpp, tagger.cpp and gt_to_json.cpp. Only the format, compression and output-path-file choices of preprocess.cpp's `main` are modelled.
- preprocess.cpp: `run` (which calls `benchmark` or `preprocess`), `mean_file_size` and all console output are left out.
- preprocess.cpp: a missing input image makes `Image(desc)` throw inside a worker thread, which ends the program. Here it is an `Err` result that ends the run.
- preprocess.cpp: `format_to_str`'s third branch ("wrong") is unreachable with two enumerators, and is not modelled.
- Type mismatches in the C++ code:
  - `TrainDatum` has no `filename()`, so `writeImages` is modelled with `ImageWriter::filename(datum)`.
  - `DataWriter.cpp` uses `Format::All` and `Format::LMDB`, which `Dataset.h` does not declare, so the model's `Format` holds all five values.
  - The constructor `(writer, sample_rate, scale, use_rotation, acceptance_rate)` at source/tagger/TrainsetGenerator.cpp:21-33 is not declared in `TrainsetGenerator.h`, which declares other constructors (include/deeplocalizer/tagger/TrainsetGenerator.h:26-31). The model follows the definition.
  - `processParallel` binds `generateAndWrite` (source/tagger/TrainsetGenerator.cpp:175), which the header does not declare. The model takes it to be the template `process(begin, end)` of include/deeplocalizer/tagger/TrainsetGenerator.h:66-77.
- Shuffling.Shuffle: the C++ standard fixes neither the order of the swaps `std::shuffle` makes nor how a draw becomes a position. libstdc++ goes from the first position forward and draws through `uniform_int_distribution`. The model fixes one pass, from the last position down, over an abstract engine, so the permutation it yields for a given engine is the model's own, not libstdc++'s. Only that the result is a permutation carries over.
- DataWriters.WriteTo: `LMDBWriter::write` throws through `ASSERT` when an `mdb_*` call fails (source/tagger/DataWriter.cpp:99-104, 117-119 and 122-128). These failures are not modelled, so the LMDB and All writers always take the batch here. The same holds for failing image, label and HDF5 file writes.
- TrainsetGeneration.TrainsetGenerator.ProcessRange: the generator loops carry each writer's log of batches, not the per-writer effect (`Wrote`) of each call, which `WriteTo` states call by call. The same holds for ProcessParallel and RunWorkers.
- Preprocessing.Configure: the loading of the path file (`ImageDesc::fromPathFile`, source/tagger/Image.cpp:72-84, called at source/tagger/preprocess.cpp:300) is not modelled step by step. Its outcome is the parameter `pathfileLoads`. That load comes before the format check at preprocess.cpp:313-319, so a missing path file or image aborts `main` whatever the format; the descriptors a successful load yields are not carried into `Run`.
- TrainsetGeneration.ParallelSlices: `2 * hardware_concurrency()` is computed on `unsigned` and could wrap. Here it is unbounded, and the same holds for Preprocessing.WorkerCount.
