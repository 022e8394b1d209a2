/**
 * The song data behind one row of the song table (song_data.py): the download
 * status, the text the search matches against, and which local files exist.
 */
module SongData {
  import opened Wrappers
  import opened Utils
  import opened FileSystem
  import opened UsdbSong
  import SyncMeta
  import Column

  // ---------------------------------------------------------------------------
  // Download status

  /** `DownloadStatus`; `NoStatus` is the member called NONE. */
  datatype DownloadStatus = NoStatus | Staged | Pending | Downloading | Done | Failed

  /** The enum value, used as the sort key of the status column. */
  function StatusValue(s: DownloadStatus): (r: nat)
    ensures r <= 5
  {
    match s
    case NoStatus => 0
    case Staged => 1
    case Pending => 2
    case Downloading => 3
    case Done => 4
    case Failed => 5
  }

  /** `DownloadStatus.__str__`. */
  function StatusText(s: DownloadStatus): (r: string)
    ensures r == "" <==> s == NoStatus || s == Staged
  {
    match s
    case NoStatus | Staged => ""
    case Pending => "Pending"
    case Downloading => "Downloading"
    case Done => "Done"
    case Failed => "Failed"
  }

  predicate CanBeUnstaged(s: DownloadStatus)
    ensures CanBeUnstaged(s) ==> s != NoStatus && s != Pending && s != Downloading
  {
    s == Staged || s == Done || s == Failed
  }

  predicate CanBeDownloaded(s: DownloadStatus)
    ensures CanBeDownloaded(s) ==> s != Pending && s != Downloading && s != Done
  {
    s == NoStatus || s == Staged || s == Failed
  }

  /** How the two queue predicates and the status text relate: a song in flight can be
      neither downloaded nor unstaged, the statuses that allow both are STAGED and
      FAILED, and every status is told apart by its value. */
  lemma StatusTable(s: DownloadStatus, t: DownloadStatus)
    ensures !CanBeDownloaded(s) && !CanBeUnstaged(s) <==> s == Pending || s == Downloading
    ensures CanBeDownloaded(s) && CanBeUnstaged(s) <==> s == Staged || s == Failed
    ensures CanBeUnstaged(s) && !CanBeDownloaded(s) <==> s == Done
    ensures StatusText(s) == "" ==> CanBeDownloaded(s)
    ensures StatusValue(s) == StatusValue(t) ==> s == t
  {
  }

  // ---------------------------------------------------------------------------
  // Fuzzy search text

  /** Python's `str.replace`: every non-overlapping occurrence of `pat`, from the left,
      replaced by `repl`. */
  function ReplaceAll(s: string, pat: string, repl: string): (r: string)
    requires |pat| > 0
    ensures |repl| == |pat| ==> |r| == |s|
    decreases |s|
  {
    if |s| < |pat| then s
    else if s[..|pat|] == pat then repl + ReplaceAll(s[|pat|..], pat, repl)
    else [s[0]] + ReplaceAll(s[1..], pat, repl)
  }

  /** Replacing cannot bring in a character that neither the text nor the replacement has. */
  lemma {:induction false} ReplaceKeepsAbsent(s: string, pat: string, repl: string, c: char)
    requires |pat| > 0 && c !in s && c !in repl
    ensures c !in ReplaceAll(s, pat, repl)
    decreases |s|
  {
    if |s| >= |pat| {
      if s[..|pat|] == pat {
        ReplaceKeepsAbsent(s[|pat|..], pat, repl, c);
      } else {
        ReplaceKeepsAbsent(s[1..], pat, repl, c);
      }
    }
  }

  /** Replacing a single character by a text without it removes it everywhere. */
  lemma {:induction false} ReplaceRemovesChar(s: string, c: char, repl: string)
    requires c !in repl
    ensures c !in ReplaceAll(s, [c], repl)
    decreases |s|
  {
    if |s| >= 1 {
      if s[..1] == [c] {
        ReplaceRemovesChar(s[1..], c, repl);
      } else {
        assert s[0] != c by {
          assert s[..1] == [s[0]];
        }
        ReplaceRemovesChar(s[1..], c, repl);
      }
    }
  }

  /** `REPLACEMENTS`: common spellings folded together, in the order they are applied. */
  const Replacements: seq<(string, string)> := [
    (" vs. ", " vs  "),
    (" & ", " and "),
    ("&", " and "),
    (" + ", " and "),
    (" ft. ", " feat. "),
    (" ft ", " feat. "),
    (" feat ", " feat. "),
    ("!", ""),
    ("?", ""),
    ("/", "")
  ]

  /** The first `n` replacements applied to `t`. */
  function ApplyReplacements(t: string, n: nat): string
    requires n <= |Replacements|
  {
    if n == 0 then t
    else ReplaceAll(ApplyReplacements(t, n - 1), Replacements[n - 1].0, Replacements[n - 1].1)
  }

  /** `fuzz_text`; transliteration and lower-casing (`unidecode(text).lower()`) are the
      function `normalize`. */
  function Fuzzed(text: string, normalize: string -> string): string {
    ApplyReplacements(normalize(text), |Replacements|)
  }

  /** `fuzz_text`: applies the replacements one after the other. */
  method FuzzText(text: string, normalize: string -> string) returns (r: string)
    ensures r == Fuzzed(text, normalize)
  {
    r := normalize(text);
    for i := 0 to |Replacements|
      invariant r == ApplyReplacements(normalize(text), i)
    {
      var (old_, new_) := Replacements[i];
      r := ReplaceAll(r, old_, new_);
    }
  }

  /** Once the replacement `k` has removed character `c`, later replacements do not bring
      it back. */
  lemma {:induction false} RemovedStaysRemoved(t: string, c: char, k: nat, n: nat)
    requires k < n <= |Replacements| && Replacements[k].0 == [c]
    requires forall j :: k <= j < |Replacements| ==> c !in Replacements[j].1
    ensures c !in ApplyReplacements(t, n)
  {
    if n == k + 1 {
      ReplaceRemovesChar(ApplyReplacements(t, k), c, Replacements[k].1);
    } else {
      RemovedStaysRemoved(t, c, k, n - 1);
      ReplaceKeepsAbsent(ApplyReplacements(t, n - 1), Replacements[n - 1].0, Replacements[n - 1].1, c);
    }
  }

  /** The fuzzed text has no '&', '!', '?' or '/'. */
  lemma FuzzedIsClean(text: string, normalize: string -> string)
    ensures '&' !in Fuzzed(text, normalize) && '!' !in Fuzzed(text, normalize)
    ensures '?' !in Fuzzed(text, normalize) && '/' !in Fuzzed(text, normalize)
  {
    var t := normalize(text);
    RemovedStaysRemoved(t, '&', 2, |Replacements|);
    RemovedStaysRemoved(t, '!', 7, |Replacements|);
    RemovedStaysRemoved(t, '?', 8, |Replacements|);
    RemovedStaysRemoved(t, '/', 9, |Replacements|);
  }

  /** `FuzzySearchText`: the id and the fuzzed artist, title, language and edition. */
  datatype FuzzySearchText = FuzzySearchText(
    songId: string, artist: string, title: string, language: string, edition: string)
  {
    /** `text in self`: the text occurs in one of the five fields. */
    predicate Matches(text: string)
      ensures text == "" ==> Matches(text)
    {
      assert text == "" ==> MatchAt(songId, text, 0);
      Contains(songId, text) || Contains(artist, text) || Contains(title, text)
      || Contains(language, text) || Contains(edition, text)
    }
  }

  function NewFuzzySearchText(song: UsdbSong, normalize: string -> string): (r: FuzzySearchText)
    ensures r.songId == IdText(song.songId)
    ensures r.artist == Fuzzed(song.artist, normalize) && r.title == Fuzzed(song.title, normalize)
    ensures r.language == Fuzzed(song.language, normalize) && r.edition == Fuzzed(song.edition, normalize)
  {
    FuzzySearchText(IdText(song.songId), Fuzzed(song.artist, normalize), Fuzzed(song.title, normalize),
                    Fuzzed(song.language, normalize), Fuzzed(song.edition, normalize))
  }

  /** The search is closed under taking substrings of the query: every part of a matching
      query matches too, and the empty query matches every song. */
  lemma MatchesSubstring(f: FuzzySearchText, text: string, part: string)
    requires f.Matches(text) && Contains(text, part)
    ensures f.Matches(part)
    ensures f.Matches("")
  {
    ContainsEmpty(f.songId);
    if Contains(f.songId, text) {
      ContainsTransitive(f.songId, text, part);
    } else if Contains(f.artist, text) {
      ContainsTransitive(f.artist, text, part);
    } else if Contains(f.title, text) {
      ContainsTransitive(f.title, text, part);
    } else if Contains(f.language, text) {
      ContainsTransitive(f.language, text, part);
    } else {
      ContainsTransitive(f.edition, text, part);
    }
  }

  /** A song is found by its own id. */
  lemma MatchesOwnId(song: UsdbSong, normalize: string -> string)
    ensures NewFuzzySearchText(song, normalize).Matches(IdText(song.songId))
  {
    var id := IdText(song.songId);
    assert MatchAt(id, id, 0);
  }

  // ---------------------------------------------------------------------------
  // Local files

  /** `LocalFiles`: the record file's path and which of the five files exist. */
  datatype LocalFiles = LocalFiles(
    usdbPath: Option<FilePath>, txt: bool, audio: bool, video: bool, cover: bool, background: bool)

  /** The default: no record file, no files. */
  const NoLocalFiles: LocalFiles := LocalFiles(None, false, false, false, false, false)

  /** The number of files flagged as present. */
  function FlagCount(l: LocalFiles): nat {
    (if l.txt then 1 else 0) + (if l.audio then 1 else 0) + (if l.video then 1 else 0)
    + (if l.cover then 1 else 0) + (if l.background then 1 else 0)
  }

  /** `LocalFiles.from_sync_meta`: a flag for each entry the record holds. */
  function FromSyncMeta(usdbPath: FilePath, m: SyncMeta.SyncMeta): (r: LocalFiles)
    reads m
    ensures r.usdbPath == Some(usdbPath)
    ensures r.txt <==> m.txt.Some?
    ensures r.audio <==> m.audio.Some?
    ensures r.video <==> m.video.Some?
    ensures r.cover <==> m.cover.Some?
    ensures r.background <==> m.background.Some?
  {
    LocalFiles(Some(usdbPath), m.txt.Some?, m.audio.Some?, m.video.Some?, m.cover.Some?, m.background.Some?)
  }

  /** The number of present entries. */
  function SomeCount(xs: seq<Option<SyncMeta.FileMeta>>): nat {
    if xs == [] then 0 else (if xs[0].Some? then 1 else 0) + SomeCount(xs[1..])
  }

  lemma {:induction false} PresentLength(xs: seq<Option<SyncMeta.FileMeta>>)
    ensures |SyncMeta.Present(xs)| == SomeCount(xs)
  {
    if xs != [] {
      PresentLength(xs[1..]);
    }
  }

  /** There are as many flags as files the record lists. */
  lemma FlagsCountFileMetas(usdbPath: FilePath, m: SyncMeta.SyncMeta)
    ensures FlagCount(FromSyncMeta(usdbPath, m)) == |m.FileMetas()|
  {
    var e := m.Entries();
    PresentLength(e);
    assert e[1..][1..][1..][1..][1..] == [];
    assert e[1..][1..][1..][1..] == [m.background];
    assert e[1..][1..][1..] == [m.cover, m.background];
    assert e[1..][1..] == [m.video, m.cover, m.background];
    assert e[1..] == [m.audio, m.video, m.cover, m.background];
    assert SomeCount(e[1..][1..][1..][1..]) == (if m.background.Some? then 1 else 0);
    assert SomeCount(e[1..][1..][1..]) == (if m.cover.Some? then 1 else 0) + SomeCount(e[1..][1..][1..][1..]);
    assert SomeCount(e[1..][1..]) == (if m.video.Some? then 1 else 0) + SomeCount(e[1..][1..][1..]);
    assert SomeCount(e[1..]) == (if m.audio.Some? then 1 else 0) + SomeCount(e[1..][1..]);
    assert SomeCount(e) == (if m.txt.Some? then 1 else 0) + SomeCount(e[1..]);
  }

  // ---------------------------------------------------------------------------
  // Song data

  datatype SongData = SongData(
    data: UsdbSong, fuzzyText: FuzzySearchText, localFiles: LocalFiles, status: DownloadStatus)
  {
    /** `with_local_files`: the same song with other local files. */
    function WithLocalFiles(files: LocalFiles): (r: SongData)
      ensures r.localFiles == files
      ensures r.data == data && r.fuzzyText == fuzzyText && r.status == status
    {
      SongData(data, fuzzyText, files, status)
    }
  }

  /** `SongData.from_usdb_song`. */
  function FromUsdbSong(song: UsdbSong, files: LocalFiles, status: DownloadStatus,
                        normalize: string -> string): (r: SongData)
    ensures r.data == song && r.localFiles == files && r.status == status
    ensures r.fuzzyText == NewFuzzySearchText(song, normalize)
  {
    SongData(song, NewFuzzySearchText(song, normalize), files, status)
  }

  /** Why a table lookup raises: `Column(column)` rejects the number, or the match has no
      case for the column and reaches `assert_never`. */
  datatype TableError = NotAColumn | Unhandled

  /** `rating_str`: one star per rating point; nothing for zero or less. */
  function RatingText(rating: int): (r: string)
    ensures |r| == (if rating > 0 then rating else 0)
    ensures forall i :: 0 <= i < |r| ==> r[i] == '★'
  {
    if rating <= 0 then "" else RatingText(rating - 1) + "★"
  }

  function YesNoText(yes: bool): (r: string)
    ensures r == (if yes then "Yes" else "No")
  {
    if yes then "Yes" else "No"
  }

  /** `display_data`: the text of a cell. The pinned column has no case and raises. */
  function DisplayData(d: SongData, column: int): (r: Result<Option<string>, TableError>)
    ensures Column.FromInt(column).None? <==> r == Err(NotAColumn)
    ensures column == Column.Value(Column.Pinned) <==> r == Err(Unhandled)
    ensures r == Ok(None) <==> 9 <= column <= 13
    ensures column == Column.Value(Column.DownloadStatus) ==> r == Ok(Some(StatusText(d.status)))
    ensures column == Column.Value(Column.Rating) ==> r == Ok(Some(RatingText(d.data.rating)))
  {
    match Column.FromInt(column)
    case None => Err(NotAColumn)
    case Some(col) =>
      match col
      case SongId => Ok(Some(IdText(d.data.songId)))
      case Artist => Ok(Some(d.data.artist))
      case Title => Ok(Some(d.data.title))
      case Language => Ok(Some(d.data.language))
      case Edition => Ok(Some(d.data.edition))
      case GoldenNotes => Ok(Some(YesNoText(d.data.goldenNotes)))
      case Rating => Ok(Some(RatingText(d.data.rating)))
      case Views => Ok(Some(IdText(d.data.views)))
      case DownloadStatus => Ok(Some(StatusText(d.status)))
      case Txt | Audio | Video | Cover | Background => Ok(None)
      case Pinned => Err(Unhandled)
  }

  /** A sort key: `sort_data` returns an int, a string or a bool. */
  datatype SortKey = IntKey(i: int) | TextKey(s: string) | FlagKey(b: bool)

  /** `sort_data`: the key a column sorts by. The pinned column has no case and raises. */
  function SortData(d: SongData, column: int): (r: Result<SortKey, TableError>)
    ensures Column.FromInt(column).None? <==> r == Err(NotAColumn)
    ensures column == Column.Value(Column.Pinned) <==> r == Err(Unhandled)
    ensures column == Column.Value(Column.DownloadStatus) ==> r == Ok(IntKey(StatusValue(d.status)))
    ensures column == Column.Value(Column.Txt) ==> r == Ok(FlagKey(d.localFiles.txt))
    ensures column == Column.Value(Column.Background) ==> r == Ok(FlagKey(d.localFiles.background))
    ensures r.Ok? && r.value.FlagKey? <==> 5 == column || 9 <= column <= 13
  {
    match Column.FromInt(column)
    case None => Err(NotAColumn)
    case Some(col) =>
      match col
      case SongId => Ok(IntKey(d.data.songId))
      case Artist => Ok(TextKey(d.data.artist))
      case Title => Ok(TextKey(d.data.title))
      case Language => Ok(TextKey(d.data.language))
      case Edition => Ok(TextKey(d.data.edition))
      case GoldenNotes => Ok(FlagKey(d.data.goldenNotes))
      case Rating => Ok(IntKey(d.data.rating))
      case Views => Ok(IntKey(d.data.views))
      case Txt => Ok(FlagKey(d.localFiles.txt))
      case Audio => Ok(FlagKey(d.localFiles.audio))
      case Video => Ok(FlagKey(d.localFiles.video))
      case Cover => Ok(FlagKey(d.localFiles.cover))
      case Background => Ok(FlagKey(d.localFiles.background))
      case DownloadStatus => Ok(IntKey(StatusValue(d.status)))
      case Pinned => Err(Unhandled)
  }

  /** The cells and the sort keys fail on the same columns, and a cell shows something
      exactly where its sort key is not a file flag. */
  lemma DisplayAndSortAgree(d: SongData, column: int)
    ensures DisplayData(d, column).Err? <==> SortData(d, column).Err?
    ensures DisplayData(d, column) == Ok(None) ==> SortData(d, column).value.FlagKey?
  {
  }
}
