/**
 * The file system as the core sees it: which paths exist, which files parse as
 * JSON (and to what document), and which images `cv::imread` decodes (and to
 * what pixel grid). It is a value: reads consult it, writes are logged by the
 * objects that perform them.
 */
module FileSystems {
  import opened JsonValues

  /** A decoded 8-bit image: `cv::Mat` with its shape and bytes. */
  datatype Grid = Grid(rows: nat, cols: nat, dims: int, bytes: seq<bv8>) {
    predicate Empty() { |bytes| == 0 }
  }

  /** What `cv::imread` returns for an unreadable file: an empty matrix. */
  const EMPTY_GRID: Grid := Grid(0, 0, 0, [])

  datatype FileSystem = FileSystem(files: set<string>, json: map<string, Json>, images: map<string, Grid>) {
    predicate Exists(path: string) { path in files }

    /** `cv::imread(path, IMREAD_GRAYSCALE)`. */
    function ImRead(path: string): Grid {
      if path in images then images[path] else EMPTY_GRID
    }

    /** `safe_serialization(path, json)`: the document is written to a temporary file that is
        then renamed onto `path`, so afterwards `path` exists and holds exactly that document. */
    function WriteJson(path: string, j: Json): (r: FileSystem)
      ensures r.Exists(path) && path in r.json && r.json[path] == j
      ensures forall p :: Exists(p) ==> r.Exists(p)
      ensures forall p :: p != path && p in json ==> p in r.json && r.json[p] == json[p]
      ensures r.images == images
    {
      this.(files := files + {path}, json := json[path := j])
    }
  }
}
