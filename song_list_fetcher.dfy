/**
 * Getting the song list (song_list_fetcher.py): the songs cached from an earlier run
 * followed by the ones USDB lists beyond them, and the local files each song has,
 * found through the sync records in the song directory.
 */
module SongListFetcher {
  import opened Wrappers
  import opened FileSystem
  import opened JsonValues
  import opened UsdbSong
  import opened SyncMeta
  import UsdbScraper
  import SongData
  import SongLoader

  /** What ends a song list refresh: an exception from reading the cache or from the
      scraper, or a sync record from a newer release. */
  datatype FetchError = Py(pyError: PyError) | Usdb(usdbError: UsdbScraper.UsdbError) | Decode(decodeError: DecodeError)

  // ---------------------------------------------------------------------------
  // The cache

  /** `dump_available_songs`: the songs as a JSON list. */
  function DumpAvailableSongs(songs: seq<UsdbSong>): (r: seq<Json>)
    ensures |r| == |songs|
    ensures forall i :: 0 <= i < |songs| ==> FromJson(r[i]) == Ok(songs[i])
  {
    seq(|songs|, i requires 0 <= i < |songs| => (JsonRoundTrip(songs[i]); ToJson(songs[i])))
  }

  /** `json.load` with `UsdbSong.from_json` as object hook on the cache's list: the first
      object that cannot be converted ends the load; a TypeError or KeyError makes the
      cache count as missing, a ValueError is raised. */
  function SongsFrom(items: seq<Json>): (r: Result<Option<seq<UsdbSong>>, PyError>)
    ensures r.Ok? && r.value.Some? ==> (|r.value.value| == |items|
      && forall i :: 0 <= i < |items| ==> FromJson(items[i]) == Ok(r.value.value[i]))
    ensures r.Err? ==> r.error == ValueError
    ensures (forall i :: 0 <= i < |items| ==> FromJson(items[i]).Ok?) ==> r.Ok? && r.value.Some?
  {
    if items == [] then Ok(Some([]))
    else
      match FromJson(items[0])
      case Err(e) => if e == ValueError then Err(ValueError) else Ok(None)
      case Ok(song) =>
        match SongsFrom(items[1..])
        case Err(e) => Err(e)
        case Ok(None) => Ok(None)
        case Ok(Some(rest)) => Ok(Some([song] + rest))
  }

  /** `load_cached_songs`: no cache file, or one that is not valid JSON, gives None. */
  function LoadCachedSongs(cache: Option<seq<Json>>): (r: Result<Option<seq<UsdbSong>>, PyError>)
    ensures cache.None? ==> r == Ok(None)
    ensures cache.Some? ==> r == SongsFrom(cache.value)
  {
    if cache.None? then Ok(None) else SongsFrom(cache.value)
  }

  /** A dumped song list loads back unchanged. */
  lemma CacheRoundTrip(songs: seq<UsdbSong>)
    ensures LoadCachedSongs(Some(DumpAvailableSongs(songs))) == Ok(Some(songs))
  {
    var items := DumpAvailableSongs(songs);
    var r := SongsFrom(items);
    assert r.Ok? && r.value.Some?;
    var loaded := r.value.value;
    assert forall i :: 0 <= i < |songs| ==> FromJson(items[i]) == Ok(loaded[i]) && FromJson(items[i]) == Ok(songs[i]);
    assert loaded == songs;
  }

  // ---------------------------------------------------------------------------
  // Available songs

  /** `max(song.song_id for song in songs)`. */
  function MaxId(songs: seq<UsdbSong>): (r: int)
    requires |songs| > 0
    ensures exists i :: 0 <= i < |songs| && songs[i].songId == r
    ensures forall i :: 0 <= i < |songs| ==> songs[i].songId <= r
  {
    if |songs| == 1 then songs[0].songId
    else
      var rest := MaxId(songs[1..]);
      assert forall i :: 1 <= i < |songs| ==> songs[i] == songs[1..][i - 1];
      if songs[0].songId >= rest then songs[0].songId else rest
  }

  function LiftUsdb<T>(r: Result<T, UsdbScraper.UsdbError>): (l: Result<T, FetchError>)
    ensures l.Ok? <==> r.Ok?
    ensures r.Ok? ==> l.value == r.value
    ensures r.Err? ==> l.error == Usdb(r.error)
  {
    match r
    case Ok(v) => Ok(v)
    case Err(e) => Err(Usdb(e))
  }

  /** `get_available_songs`: a forced reload asks USDB for every song; otherwise the
      cached songs are kept and only songs with a higher id are fetched. An empty or
      missing cache makes `max` raise a ValueError. */
  function GetAvailableSongs(forceReload: bool, cache: Option<seq<Json>>,
                             fetch: nat -> Result<UsdbScraper.ListPage, UsdbScraper.UsdbError>)
    : (r: Result<seq<UsdbSong>, FetchError>)
    ensures forceReload ==> r == LiftUsdb(UsdbScraper.AvailableFrom(0, 0, fetch))
    ensures (!forceReload && LoadCachedSongs(cache).Ok? && (LoadCachedSongs(cache).value.None?
      || LoadCachedSongs(cache).value.value == [])) ==> r == Err(Py(ValueError))
    ensures !forceReload && r.Ok? ==> (LoadCachedSongs(cache).Ok? && LoadCachedSongs(cache).value.Some?
      && var cached := LoadCachedSongs(cache).value.value;
      |cached| > 0 && |cached| <= |r.value| && r.value[..|cached|] == cached
      && UsdbScraper.AvailableFrom(0, MaxId(cached), fetch) == Ok(r.value[|cached|..])
      && forall i, j :: 0 <= i < |cached| <= j < |r.value| ==> r.value[i].songId < r.value[j].songId)
  {
    if forceReload then LiftUsdb(UsdbScraper.AvailableFrom(0, 0, fetch))
    else
      match LoadCachedSongs(cache)
      case Err(e) => Err(Py(e))
      case Ok(loaded) =>
        var cached := if loaded.Some? then loaded.value else [];
        if cached == [] then Err(Py(ValueError))
        else
          var fetched :- LiftUsdb(UsdbScraper.AvailableFrom(0, MaxId(cached), fetch));
          var all := cached + fetched;
          assert all[..|cached|] == cached && all[|cached|..] == fetched;
          assert forall j :: |cached| <= j < |all| ==> all[j] in fetched;
          Ok(all)
  }

  // ---------------------------------------------------------------------------
  // Local files

  /** `_file_exists`: a header that names a file existing in the folder. */
  predicate FileNamedIn(fs: FS, folder: Dir, fname: Option<string>) {
    fname.Some? && fname.value != "" && FileExists(fs, FilePath(folder, fname.value))
  }

  /** `_get_song_txt`: the headers of the txt the record lists, when that file exists and
      `readTxt` (reading in an unknown encoding, then parsing) succeeds. */
  function GetSongTxt(fs: FS, folder: Dir, txt: Option<FileMeta>, readTxt: FilePath -> Option<SongLoader.Headers>)
    : (r: Option<SongLoader.Headers>)
    ensures r.Some? ==> (txt.Some? && FileExists(fs, FilePath(folder, txt.value.fname))
      && readTxt(FilePath(folder, txt.value.fname)) == r)
    ensures txt.Some? && FileExists(fs, FilePath(folder, txt.value.fname)) ==> r == readTxt(FilePath(folder, txt.value.fname))
  {
    if txt.None? then None
    else
      var path := FilePath(folder, txt.value.fname);
      if FileExists(fs, path) then readTxt(path) else None
  }

  /** The sync record at `path`, read as `SyncMeta.try_from_file` reads it. */
  function MetaAt(path: FilePath, readMeta: FilePath -> Option<Json>): (r: Result<Option<Decoded>, DecodeError>)
    ensures r.Err? <==> readMeta(path).Some? && DecodeDict(readMeta(path).value) == Err(SyncMetaTooNew)
    ensures r.Err? ==> r.error == SyncMetaTooNew
    ensures r.Ok? && r.value.Some? ==> readMeta(path).Some? && DecodeDict(readMeta(path).value) == Ok(r.value.value)
  {
    match readMeta(path)
    case None => Ok(None)
    case Some(j) =>
      match DecodeDict(j)
      case Ok(d) => Ok(Some(d))
      case Err(e) => if e == SyncMetaTooNew then Err(e) else Ok(None)
  }

  /** The song a sync record file belongs to, if it can be read. */
  function IdAt(path: FilePath, readMeta: FilePath -> Option<Json>): Option<int> {
    var m := MetaAt(path, readMeta);
    if m.Ok? && m.value.Some? then Some(m.value.value.songId) else None
  }

  /** The local files of a song whose record is at `path`: the record itself, and, when
      its txt can be read, the txt and the files its headers name in the same folder. */
  function FilesFor(fs: FS, path: FilePath, d: Decoded, readTxt: FilePath -> Option<SongLoader.Headers>)
    : (r: SongData.LocalFiles)
    ensures r.usdbPath == Some(path)
    ensures r.txt <==> GetSongTxt(fs, path.dir, d.txt, readTxt).Some?
    ensures !r.txt ==> !r.audio && !r.video && !r.cover && !r.background
    ensures r.txt ==> var h := GetSongTxt(fs, path.dir, d.txt, readTxt).value;
      (r.audio <==> FileNamedIn(fs, path.dir, h.mp3)) && (r.video <==> FileNamedIn(fs, path.dir, h.video))
      && (r.cover <==> FileNamedIn(fs, path.dir, h.cover))
      && (r.background <==> FileNamedIn(fs, path.dir, h.background))
  {
    match GetSongTxt(fs, path.dir, d.txt, readTxt)
    case None => SongData.LocalFiles(Some(path), false, false, false, false, false)
    case Some(h) =>
      SongData.LocalFiles(Some(path), true, FileNamedIn(fs, path.dir, h.mp3), FileNamedIn(fs, path.dir, h.video),
                          FileNamedIn(fs, path.dir, h.cover), FileNamedIn(fs, path.dir, h.background))
  }

  /** The loop of `find_local_files` from the `i`-th record file on, starting from `found`:
      a record from a newer release ends it; of several records of the same song, the
      last one wins. */
  function LocalFilesFrom(found: map<int, SongData.LocalFiles>, fs: FS, paths: seq<FilePath>, i: nat,
                          readMeta: FilePath -> Option<Json>, readTxt: FilePath -> Option<SongLoader.Headers>)
    : (r: Result<map<int, SongData.LocalFiles>, DecodeError>)
    requires i <= |paths|
    ensures r.Err? <==> exists j :: i <= j < |paths| && MetaAt(paths[j], readMeta).Err?
    decreases |paths| - i
  {
    if i == |paths| then Ok(found)
    else
      var p := paths[i];
      match MetaAt(p, readMeta)
      case Err(e) => Err(e)
      case Ok(None) => LocalFilesFrom(found, fs, paths, i + 1, readMeta, readTxt)
      case Ok(Some(d)) => LocalFilesFrom(found[d.songId := FilesFor(fs, p, d, readTxt)], fs, paths, i + 1, readMeta, readTxt)
  }

  /** The songs with an entry are those found before plus those whose record is read;
      a song no later record names keeps the entry it had. */
  lemma {:induction false} LocalFilesKeys(found: map<int, SongData.LocalFiles>, fs: FS, paths: seq<FilePath>, i: nat,
                                          readMeta: FilePath -> Option<Json>,
                                          readTxt: FilePath -> Option<SongLoader.Headers>)
    requires i <= |paths| && LocalFilesFrom(found, fs, paths, i, readMeta, readTxt).Ok?
    ensures var r := LocalFilesFrom(found, fs, paths, i, readMeta, readTxt).value;
      forall id :: id in r <==> (id in found || exists j :: i <= j < |paths| && IdAt(paths[j], readMeta) == Some(id))
    ensures var r := LocalFilesFrom(found, fs, paths, i, readMeta, readTxt).value;
      forall id :: id in found && (forall j :: i <= j < |paths| ==> IdAt(paths[j], readMeta) != Some(id))
        ==> r[id] == found[id]
    decreases |paths| - i
  {
    if i < |paths| {
      var p := paths[i];
      var m := MetaAt(p, readMeta);
      var next := if m.Ok? && m.value.Some? then found[m.value.value.songId := FilesFor(fs, p, m.value.value, readTxt)]
                  else found;
      assert LocalFilesFrom(found, fs, paths, i, readMeta, readTxt) == LocalFilesFrom(next, fs, paths, i + 1, readMeta, readTxt);
      LocalFilesKeys(next, fs, paths, i + 1, readMeta, readTxt);
    }
  }

  /** The entry a song ends up with comes from the last of its record files. */
  lemma {:induction false} LastRecordWins(found: map<int, SongData.LocalFiles>, fs: FS, paths: seq<FilePath>, i: nat,
                                          readMeta: FilePath -> Option<Json>,
                                          readTxt: FilePath -> Option<SongLoader.Headers>, j: nat)
    requires i <= j < |paths| && IdAt(paths[j], readMeta).Some?
    requires forall k :: j < k < |paths| ==> IdAt(paths[k], readMeta) != IdAt(paths[j], readMeta)
    requires LocalFilesFrom(found, fs, paths, i, readMeta, readTxt).Ok?
    ensures var id := IdAt(paths[j], readMeta).value;
      var r := LocalFilesFrom(found, fs, paths, i, readMeta, readTxt).value;
      id in r && r[id] == FilesFor(fs, paths[j], MetaAt(paths[j], readMeta).value.value, readTxt)
    decreases |paths| - i
  {
    var p := paths[i];
    var m := MetaAt(p, readMeta);
    if i == j {
      var next := found[m.value.value.songId := FilesFor(fs, p, m.value.value, readTxt)];
      assert LocalFilesFrom(found, fs, paths, i, readMeta, readTxt) == LocalFilesFrom(next, fs, paths, i + 1, readMeta, readTxt);
      LocalFilesKeys(next, fs, paths, i + 1, readMeta, readTxt);
    } else {
      if m.Ok? && m.value.Some? {
        LastRecordWins(found[m.value.value.songId := FilesFor(fs, p, m.value.value, readTxt)], fs, paths, i + 1,
                       readMeta, readTxt, j);
      } else {
        LastRecordWins(found, fs, paths, i + 1, readMeta, readTxt, j);
      }
    }
  }

  /** `find_local_files`: the record files in the song directory (in the order the
      directory walk yields them) read one by one. */
  method FindLocalFiles(fs: FS, paths: seq<FilePath>, readMeta: FilePath -> Option<Json>,
                        readTxt: FilePath -> Option<SongLoader.Headers>)
    returns (r: Result<map<int, SongData.LocalFiles>, DecodeError>)
    ensures r == LocalFilesFrom(map[], fs, paths, 0, readMeta, readTxt)
  {
    var found: map<int, SongData.LocalFiles> := map[];
    var i := 0;
    while i < |paths|
      invariant 0 <= i <= |paths|
      invariant LocalFilesFrom(found, fs, paths, i, readMeta, readTxt) == LocalFilesFrom(map[], fs, paths, 0, readMeta, readTxt)
    {
      var entry := ReadRecordFile(fs, paths[i], readMeta, readTxt);
      if entry.Err? {
        return Err(entry.error);
      }
      if entry.value.Some? {
        found := found[entry.value.value.0 := entry.value.value.1];
      }
      i := i + 1;
    }
    return Ok(found);
  }

  /** One pass of the loop of `find_local_files`: the record at `path`, if it reads, and
      the local files of its song. */
  method ReadRecordFile(fs: FS, path: FilePath, readMeta: FilePath -> Option<Json>,
                        readTxt: FilePath -> Option<SongLoader.Headers>)
    returns (r: Result<Option<(int, SongData.LocalFiles)>, DecodeError>)
    ensures r.Err? <==> MetaAt(path, readMeta).Err?
    ensures r.Err? ==> r.error == MetaAt(path, readMeta).error
    ensures r.Ok? ==> (r.value.None? <==> MetaAt(path, readMeta).value.None?)
    ensures r.Ok? && r.value.Some? ==> var d := MetaAt(path, readMeta).value.value;
      r.value.value == (d.songId, FilesFor(fs, path, d, readTxt))
  {
    var meta := TryFromFile(readMeta(path));
    if meta.Err? {
      return Err(meta.error);
    }
    if meta.value.None? {
      return Ok(None);
    }
    var m := meta.value.value;
    var files := SongData.LocalFiles(Some(path), false, false, false, false, false);
    var txt := GetSongTxt(fs, path.dir, m.txt, readTxt);
    if txt.Some? {
      files := files.(txt := true,
                      audio := FileNamedIn(fs, path.dir, txt.value.mp3),
                      video := FileNamedIn(fs, path.dir, txt.value.video),
                      cover := FileNamedIn(fs, path.dir, txt.value.cover),
                      background := FileNamedIn(fs, path.dir, txt.value.background));
    }
    return Ok(Some((m.songId, files)));
  }

  // ---------------------------------------------------------------------------
  // Song data

  /** `local_files.get(song_id, LocalFiles())`. */
  function FilesOf(files: map<int, SongData.LocalFiles>, songId: int): (r: SongData.LocalFiles)
    ensures songId in files ==> r == files[songId]
    ensures songId !in files ==> r == SongData.NoLocalFiles
  {
    if songId in files then files[songId] else SongData.NoLocalFiles
  }

  /** `get_all_song_data`: the available songs, each with its local files and no status.
      `local` is what `find_local_files` gave. */
  function GetAllSongData(forceReload: bool, cache: Option<seq<Json>>,
                          fetch: nat -> Result<UsdbScraper.ListPage, UsdbScraper.UsdbError>,
                          local: Result<map<int, SongData.LocalFiles>, DecodeError>, normalize: string -> string)
    : (r: Result<seq<SongData.SongData>, FetchError>)
    ensures r.Ok? <==> GetAvailableSongs(forceReload, cache, fetch).Ok? && local.Ok?
    ensures r.Ok? ==> var songs := GetAvailableSongs(forceReload, cache, fetch).value;
      |r.value| == |songs|
      && forall i :: 0 <= i < |songs| ==> (r.value[i].data == songs[i]
        && r.value[i].localFiles == FilesOf(local.value, songs[i].songId)
        && r.value[i].status == SongData.NoStatus
        && r.value[i].fuzzyText == SongData.NewFuzzySearchText(songs[i], normalize))
  {
    var songs :- GetAvailableSongs(forceReload, cache, fetch);
    match local
    case Err(e) => Err(Decode(e))
    case Ok(files) =>
      Ok(seq(|songs|, i requires 0 <= i < |songs| =>
        SongData.FromUsdbSong(songs[i], FilesOf(files, songs[i].songId), SongData.NoStatus, normalize)))
  }

  /** `resync_song_data`: the same songs with freshly found local files. `local` is what
      `find_local_files` gave; its error (a record from a newer release) is raised on. */
  function ResyncSongData(data: seq<SongData.SongData>, local: Result<map<int, SongData.LocalFiles>, DecodeError>)
    : (r: Result<seq<SongData.SongData>, DecodeError>)
    ensures r.Err? <==> local.Err?
    ensures r.Err? ==> r.error == local.error
    ensures r.Ok? ==> |r.value| == |data|
    ensures r.Ok? ==> forall i :: 0 <= i < |data| ==>
      r.value[i] == data[i].WithLocalFiles(FilesOf(local.value, data[i].data.songId))
  {
    var files :- local;
    Ok(seq(|data|, i requires 0 <= i < |data| => data[i].WithLocalFiles(FilesOf(files, data[i].data.songId))))
  }

  /** Resyncing keeps the songs, their order and their statuses, and resyncing twice
      with the same files is the same as once. */
  lemma ResyncKeepsSongs(data: seq<SongData.SongData>, files: map<int, SongData.LocalFiles>)
    ensures ResyncSongData(data, Ok(files)).Ok?
    ensures forall i :: 0 <= i < |data| ==>
      ResyncSongData(data, Ok(files)).value[i].data == data[i].data
      && ResyncSongData(data, Ok(files)).value[i].status == data[i].status
    ensures ResyncSongData(ResyncSongData(data, Ok(files)).value, Ok(files)) == ResyncSongData(data, Ok(files))
  {
    var once := ResyncSongData(data, Ok(files)).value;
    var twice := ResyncSongData(once, Ok(files)).value;
    assert forall i :: 0 <= i < |data| ==> twice[i] == once[i];
    assert twice == once;
  }
}
