/** The file system as the pipeline sees it: a map from path to file
    content, a set of directories, and the journal of files written, in
    order. Image files hold the pixel array handed to cv2.imwrite; csv files
    hold their rows as field sequences. */
module Files {
  import opened Pixels
  import opened OsPath

  datatype Entry = Picture(pixels: Image) | Table(rows: seq<seq<string>>)

  /** One file write: an image written, a ledger created with its header, or
      one row appended to a ledger. */
  datatype Event = WroteImage(path: string) | CreatedTable(path: string) | AppendedRow(path: string)

  datatype FileSystem = FileSystem(files: map<string, Entry>, dirs: set<string>, journal: seq<Event>)

  /** `os.path.exists`. */
  predicate Exists(fs: FileSystem, p: string) {
    p in fs.files || p in fs.dirs
  }

  /** `os.makedirs(d, exist_ok=True)` where it succeeds: `d` and all its
      ancestors become directories; no file changes. A regular file on the
      way, where Python raises, is not modelled. */
  function MakeDirs(fs: FileSystem, d: string): (r: FileSystem)
    ensures d in r.dirs && fs.dirs <= r.dirs
    ensures r.files == fs.files && r.journal == fs.journal
  {
    fs.(dirs := fs.dirs + Ancestors(d))
  }

  /** The directory step before a write: create the parent directory unless
      it is empty (the current directory) or already exists. A parent that
      exists as a regular file is taken as usable. */
  function EnsureParent(fs: FileSystem, p: string): (r: FileSystem)
    ensures r.files == fs.files && r.journal == fs.journal && fs.dirs <= r.dirs
    ensures DirName(p) == "" || Exists(r, DirName(p))
  {
    var d := DirName(p);
    if d != "" && !Exists(fs, d) then MakeDirs(fs, d) else fs
  }

  /** Writes (or overwrites) one file and records the event. */
  function Put(fs: FileSystem, p: string, e: Entry, ev: Event): (r: FileSystem)
    ensures r.files == fs.files[p := e] && r.dirs == fs.dirs
    ensures r.journal == fs.journal + [ev]
  {
    FileSystem(fs.files[p := e], fs.dirs, fs.journal + [ev])
  }

  /** The rows of the csv file at `p`, or none if there is no such file. */
  function RowsAt(fs: FileSystem, p: string): seq<seq<string>> {
    if p in fs.files && fs.files[p].Table? then fs.files[p].rows else []
  }
}
