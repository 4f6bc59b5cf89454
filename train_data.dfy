/**
 * Training samples (TrainDatum.h) and the dataset formats (Dataset.h,
 * Dataset.cpp).
 */
module TrainData {
  import opened Wrappers
  import opened Geometry

  /** The pixels of a sample as far as the core looks at them: the matrix shape, and the
      image rectangle the pixels were cut from. */
  datatype Patch = Patch(rows: nat, cols: nat, roi: Rect) {
    /** `cv::Mat::total()`. */
    function Total(): nat { rows * cols }
  }

  /** `TrainDatum`: a sample, its centre in the source image, rotation angle in degrees,
      taginess in [0, 1] and a free-form description. */
  datatype TrainDatum = TrainDatum(mat: Patch, center: Point, rotationAngle: real, taginess: real, description: string)

  /** The constructor, whose description defaults to the empty string. */
  function NewTrainDatum(mat: Patch, center: Point, rotationAngle: real, taginess: real, description: string := "")
    : (d: TrainDatum)
    ensures d.mat == mat && d.center == center && d.rotationAngle == rotationAngle
    ensures d.taginess == taginess && d.description == description
  {
    TrainDatum(mat, center, rotationAngle, taginess, description)
  }

  /** The dataset formats: `Images`, `HDF5` and `DevNull` are declared with the enum; `All`
      and `LMDB` are the further formats the writer factory dispatches on. */
  datatype Format = Images | HDF5 | DevNull | All | LMDB

  /** `Dataset::parseFormat`: only "images" and "hdf5" are recognised. */
  function ParseFormat(s: string): (r: Option<Format>)
    ensures r == Some(Images) <==> s == "images"
    ensures r == Some(HDF5) <==> s == "hdf5"
    ensures r.None? <==> s != "images" && s != "hdf5"
  {
    if s == "images" then Some(Images)
    else if s == "hdf5" then Some(HDF5)
    else None
  }

  /** The format names the command line advertises for LMDB and for all formats together
      are rejected, and no string selects the null writer. */
  lemma ParseFormatRejects(s: string)
    ensures ParseFormat("lmdb").None? && ParseFormat("all").None?
    ensures ParseFormat(s) != Some(DevNull) && ParseFormat(s) != Some(All) && ParseFormat(s) != Some(LMDB)
  {
  }
}
