/**
 * An abstract file system: each directory (a sequence of path components) maps
 * the names of the files it holds to their modification times. Song folders are
 * flat, so a directory's files are not nested further; the directories
 * themselves are the keys of the outer map.
 */
module FileSystem {
  import opened Wrappers

  type Dir = seq<string>

  /** A modification time, only ever compared for equality. */
  type Mtime = int

  datatype FilePath = FilePath(dir: Dir, name: string)

  type FS = map<Dir, map<string, Mtime>>

  /** The last component of a directory path (`Path.name`). */
  function DirName(d: Dir): string {
    if |d| == 0 then "" else d[|d| - 1]
  }

  /** All but the last component (`Path.parent`). */
  function Parent(d: Dir): Dir {
    if |d| == 0 then [] else d[..|d| - 1]
  }

  /** `Path.with_name`: the sibling of `d` called `n`. */
  function WithName(d: Dir, n: string): (r: Dir)
    requires |d| > 0
    ensures Parent(r) == Parent(d) && DirName(r) == n
  {
    var r := d[..|d| - 1] + [n];
    assert r[..|r| - 1] == d[..|d| - 1];
    r
  }

  predicate FileExists(fs: FS, p: FilePath) {
    p.dir in fs && p.name in fs[p.dir]
  }

  /** Every path that `Path.exists()` holds for: the directories and the files in them. */
  function ExistingPaths(fs: FS): set<Dir> {
    fs.Keys + set d, n | d in fs && n in fs[d] :: d + [n]
  }

  function MtimeOf(fs: FS, p: FilePath): Option<Mtime> {
    if FileExists(fs, p) then Some(fs[p.dir][p.name]) else None
  }

  /** Moves a file to the trash; a missing file is left alone. */
  function Trash(fs: FS, p: FilePath): (r: FS)
    ensures !FileExists(r, p)
    ensures r.Keys == fs.Keys
    ensures forall q :: q != p ==> MtimeOf(r, q) == MtimeOf(fs, q)
  {
    if FileExists(fs, p) then fs[p.dir := fs[p.dir] - {p.name}] else fs
  }

  /**
   * `Path.rename`: moves a file, replacing whatever the target held (as on POSIX).
   * A missing source or target directory is an error.
   */
  function Rename(fs: FS, src: FilePath, dst: FilePath): (r: Result<FS, string>)
    ensures r.Ok? <==> FileExists(fs, src) && dst.dir in fs
    ensures r.Ok? ==> r.value.Keys == fs.Keys
    ensures r.Ok? ==> MtimeOf(r.value, dst) == MtimeOf(fs, src)
    ensures r.Ok? && src != dst ==> !FileExists(r.value, src)
    ensures r.Ok? ==> forall q :: q != src && q != dst ==> MtimeOf(r.value, q) == MtimeOf(fs, q)
  {
    if !FileExists(fs, src) then Err("file not found")
    else if dst.dir !in fs then Err("target directory not found")
    else
      var m := fs[src.dir][src.name];
      var removed := fs[src.dir := fs[src.dir] - {src.name}];
      Ok(removed[dst.dir := removed[dst.dir][dst.name := m]])
  }

  /** Creates or overwrites a file; its directory must exist. */
  function WriteFile(fs: FS, p: FilePath, m: Mtime): (r: FS)
    requires p.dir in fs
    ensures r.Keys == fs.Keys
    ensures MtimeOf(r, p) == Some(m)
    ensures forall q :: q != p ==> MtimeOf(r, q) == MtimeOf(fs, q)
  {
    fs[p.dir := fs[p.dir][p.name := m]]
  }

  /** `mkdir(parents=True, exist_ok=True)` on a flat tree. */
  function MakeDir(fs: FS, d: Dir): (r: FS)
    ensures d in r && r.Keys == fs.Keys + {d}
    ensures forall q :: MtimeOf(r, q) == MtimeOf(fs, q)
  {
    if d in fs then fs else fs[d := map[]]
  }

  /** Renames a directory, taking its files along. */
  function RenameDir(fs: FS, src: Dir, dst: Dir): (r: FS)
    requires src in fs && dst !in fs
    ensures r.Keys == fs.Keys - {src} + {dst}
    ensures r[dst] == fs[src]
    ensures forall d :: d in fs && d != src ==> r[d] == fs[d]
  {
    (fs - {src})[dst := fs[src]]
  }
}
