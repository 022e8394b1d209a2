/**
 * The sync record of a song (sync_meta.py): which local file stands for which
 * downloaded resource, and when it was last written.
 */
module SyncMeta {
  import opened Wrappers
  import opened FileSystem
  import opened Utils
  import Constants
  import opened JsonValues

  const SyncMetaVersion: int := 1

  /** What is known about one local file. */
  datatype FileMeta = FileMeta(fname: string, mtime: Mtime, resource: string)

  /** What reading a stored record can fail with: a malformed record (the JSON
      decoding, Type, Key and Value errors) or one from a newer release. */
  datatype DecodeError = Malformed(cause: PyError) | SyncMetaTooNew

  function Lift<T>(r: Result<T, PyError>): (l: Result<T, DecodeError>)
    ensures l.Ok? <==> r.Ok?
    ensures r.Ok? ==> l.value == r.value
    ensures r.Err? ==> l.error == Malformed(r.error)
  {
    match r
    case Ok(v) => Ok(v)
    case Err(e) => Err(Malformed(e))
  }

  /** `folder/fname` exists and its mtime is the recorded one. */
  predicate IsInSync(m: FileMeta, fs: FS, folder: Dir)
    ensures IsInSync(m, fs, folder) ==> FileExists(fs, FilePath(folder, m.fname))
  {
    MtimeOf(fs, FilePath(folder, m.fname)) == Some(m.mtime)
  }

  /** Where a txt is downloaded from: this prefix followed by the song id. */
  const TxtUrlPrefix: string := Constants.BaseUrl + "?link=gettxt&id="

  /** `FileMeta.new`: the name and mtime of a file, with the resource it came from;
      `os.path.getmtime` raises for a missing file (None). */
  function NewFileMeta(fs: FS, path: FilePath, resource: string): (r: Option<FileMeta>)
    ensures r.Some? <==> FileExists(fs, path)
    ensures r.Some? ==> r.value.fname == path.name && r.value.resource == resource
    ensures r.Some? ==> IsInSync(r.value, fs, path.dir)
  {
    if FileExists(fs, path) then Some(FileMeta(path.name, fs[path.dir][path.name], resource)) else None
  }

  /** `FileMeta.from_nested_dict`: None for a falsy entry, else `FileMeta(**dct)`, which
      needs exactly the keys fname, mtime and resource. */
  function FromNestedDict(j: Json): (r: Result<Option<FileMeta>, PyError>)
    ensures !Truthy(j) ==> r == Ok(None)
    ensures r == Ok(None) ==> !Truthy(j)
    ensures r.Ok? && r.value.Some? ==>
      j.JObject? && j.fields.Keys == {"fname", "mtime", "resource"}
      && j.fields["fname"] == JStr(r.value.value.fname)
      && j.fields["mtime"] == JInt(r.value.value.mtime)
      && j.fields["resource"] == JStr(r.value.value.resource)
    ensures r.Err? ==> r.error == TypeError
  {
    if !Truthy(j) then Ok(None)
    else if !j.JObject? || j.fields.Keys != {"fname", "mtime", "resource"} then Err(TypeError)
    else
      var fname, mtime, resource := j.fields["fname"], j.fields["mtime"], j.fields["resource"];
      if fname.JStr? && mtime.JInt? && resource.JStr? then
        Ok(Some(FileMeta(fname.s, mtime.i, resource.s)))
      else Err(TypeError)
  }

  /** Encoding of an entry as `attrs.asdict` writes it; the inverse of `FromNestedDict`. */
  function FileMetaToJson(m: FileMeta): Json {
    JObject(map["fname" := JStr(m.fname), "mtime" := JInt(m.mtime), "resource" := JStr(m.resource)])
  }

  lemma FileMetaRoundTrip(m: FileMeta)
    ensures FromNestedDict(FileMetaToJson(m)) == Ok(Some(m))
  {
    var j := FileMetaToJson(m);
    assert j.fields.Keys == {"fname", "mtime", "resource"};
    assert Truthy(j) by { assert "fname" in j.fields; }
  }

  /** The version a stored record declares, when it can be read at all. */
  function StoredVersion(j: Json): (r: Result<int, PyError>)
    ensures r.Ok? <==> j.JObject? && "version" in j.fields && IntOf(j.fields["version"]).Ok?
    ensures !j.JObject? ==> r == Err(TypeError)
    ensures j.JObject? && "version" !in j.fields ==> r == Err(KeyError)
  {
    var v :- Get(j, "version");
    IntOf(v)
  }

  /** The present entries of a sequence, in order (the `if meta: yield meta` filter). */
  function Present(xs: seq<Option<FileMeta>>): (r: seq<FileMeta>)
    ensures |r| <= |xs|
    ensures forall m :: m in r <==> Some(m) in xs
  {
    if xs == [] then []
    else
      var rest := Present(xs[1..]);
      assert forall m :: Some(m) in xs <==> xs[0] == Some(m) || Some(m) in xs[1..];
      if xs[0].Some? then [xs[0].value] + rest else rest
  }

  lemma {:induction false} PresentConcat(a: seq<Option<FileMeta>>, b: seq<Option<FileMeta>>)
    ensures Present(a + b) == Present(a) + Present(b)
  {
    if a != [] {
      assert (a + b)[1..] == a[1..] + b;
      PresentConcat(a[1..], b);
    } else {
      assert a + b == b;
    }
  }

  /** One entry as the list it contributes: its meta when set, else nothing. */
  function Listed(e: Option<FileMeta>): seq<FileMeta> {
    if e.Some? then [e.value] else []
  }

  lemma PresentStep(xs: seq<Option<FileMeta>>)
    requires xs != []
    ensures Present(xs) == Listed(xs[0]) + Present(xs[1..])
  {
  }

  /** Five entries contribute in their own order, each on its own. */
  lemma {:induction false} PresentFive(xs: seq<Option<FileMeta>>)
    requires |xs| == 5
    ensures Present(xs) == Listed(xs[0]) + (Listed(xs[1]) + (Listed(xs[2]) + (Listed(xs[3]) + Listed(xs[4]))))
  {
    var x1, x2, x3, x4 := xs[1..], xs[2..], xs[3..], xs[4..];
    PresentStep(xs);
    PresentStep(x1);
    assert x1[0] == xs[1] && x1[1..] == x2;
    PresentStep(x2);
    assert x2[0] == xs[2] && x2[1..] == x3;
    PresentStep(x3);
    assert x3[0] == xs[3] && x3[1..] == x4;
    PresentStep(x4);
    assert x4[0] == xs[4] && x4[1..] == [];
    assert Listed(xs[4]) + [] == Listed(xs[4]);
  }

  /** An entry that is present and in sync, else None (the `synced_*` rule). */
  function Synced(entry: Option<FileMeta>, fs: FS, folder: Dir): (r: Option<FileMeta>)
    ensures r.Some? ==> r == entry && IsInSync(r.value, fs, folder)
    ensures r.None? ==> entry.None? || !IsInSync(entry.value, fs, folder)
  {
    if entry.Some? && IsInSync(entry.value, fs, folder) then entry else None
  }

  class SyncMeta {
    var songId: int
    /** The `#VIDEO` meta tags in their textual form (MetaTags.parse is not part of this model). */
    var metaTags: string
    var txt: Option<FileMeta>
    var audio: Option<FileMeta>
    var video: Option<FileMeta>
    var cover: Option<FileMeta>
    var background: Option<FileMeta>
    var version: int

    /** `SyncMeta.new`: no files yet, the current version. */
    constructor (songId: int, metaTags: string)
      ensures this.songId == songId && this.metaTags == metaTags
      ensures txt.None? && audio.None? && video.None? && cover.None? && background.None?
      ensures version == SyncMetaVersion
    {
      this.songId := songId;
      this.metaTags := metaTags;
      txt, audio, video, cover, background := None, None, None, None, None;
      version := SyncMetaVersion;
    }

    /** The five entries in the order of the record. */
    function Entries(): (r: seq<Option<FileMeta>>)
      reads this
      ensures |r| == 5
    {
      [txt, audio, video, cover, background]
    }

    /** `file_metas`: the present entries in the order txt, audio, video, cover, background. */
    function FileMetas(): (r: seq<FileMeta>)
      reads this
      ensures forall m :: m in r <==> Some(m) in Entries()
      ensures |r| <= 5
      ensures txt.Some? ==> |r| > 0 && r[0] == txt.value
      ensures background.Some? ==> |r| > 0 && r[|r| - 1] == background.value
      ensures r == Listed(txt) + (Listed(audio) + (Listed(video) + (Listed(cover) + Listed(background))))
    {
      PresentFive(Entries());
      Present(Entries())
    }

    function SyncedAudio(fs: FS, folder: Dir): (r: Option<FileMeta>)
      reads this
      ensures r.Some? <==> audio.Some? && IsInSync(audio.value, fs, folder)
      ensures r.Some? ==> r == audio
    {
      Synced(audio, fs, folder)
    }

    function SyncedVideo(fs: FS, folder: Dir): (r: Option<FileMeta>)
      reads this
      ensures r.Some? <==> video.Some? && IsInSync(video.value, fs, folder)
      ensures r.Some? ==> r == video
    {
      Synced(video, fs, folder)
    }

    function SyncedCover(fs: FS, folder: Dir): (r: Option<FileMeta>)
      reads this
      ensures r.Some? <==> cover.Some? && IsInSync(cover.value, fs, folder)
      ensures r.Some? ==> r == cover
    {
      Synced(cover, fs, folder)
    }

    function SyncedBackground(fs: FS, folder: Dir): (r: Option<FileMeta>)
      reads this
      ensures r.Some? <==> background.Some? && IsInSync(background.value, fs, folder)
      ensures r.Some? ==> r == background
    {
      Synced(background, fs, folder)
    }

    /** `set_txt_meta`: records the file at `path` as the song's txt, downloaded from
        `BASE_URL?link=gettxt&id=<id>` with the record's own song id.
        A missing file raises (false) and leaves the record as it was. */
    method SetTxtMeta(fs: FS, path: FilePath) returns (ok: bool)
      modifies this`txt
      ensures ok <==> FileExists(fs, path)
      ensures ok ==> txt == NewFileMeta(fs, path, TxtUrlPrefix + IdText(songId))
      ensures ok ==> txt.value.resource[..|TxtUrlPrefix|] == TxtUrlPrefix
      ensures ok && songId >= 0 ==> ParseInt(txt.value.resource[|TxtUrlPrefix|..]) == Some(songId)
      ensures ok ==> txt.value.fname == path.name && IsInSync(txt.value, fs, path.dir)
      ensures !ok ==> txt == old(txt)
    {
      var m := NewFileMeta(fs, path, TxtUrlPrefix + IdText(songId));
      ok := m.Some?;
      if ok {
        txt := m;
      }
    }

    /** `set_audio_meta`: records the file at `path` as the song's audio. */
    method SetAudioMeta(fs: FS, path: FilePath, resource: string) returns (ok: bool)
      modifies this`audio
      ensures ok <==> FileExists(fs, path)
      ensures ok ==> audio == NewFileMeta(fs, path, resource) && IsInSync(audio.value, fs, path.dir)
      ensures !ok ==> audio == old(audio)
    {
      var m := NewFileMeta(fs, path, resource);
      ok := m.Some?;
      if ok {
        audio := m;
      }
    }

    /** `set_video_meta`: records the file at `path` as the song's video. */
    method SetVideoMeta(fs: FS, path: FilePath, resource: string) returns (ok: bool)
      modifies this`video
      ensures ok <==> FileExists(fs, path)
      ensures ok ==> video == NewFileMeta(fs, path, resource) && IsInSync(video.value, fs, path.dir)
      ensures !ok ==> video == old(video)
    {
      var m := NewFileMeta(fs, path, resource);
      ok := m.Some?;
      if ok {
        video := m;
      }
    }

    /** `set_cover_meta`: records the file at `path` as the song's cover. */
    method SetCoverMeta(fs: FS, path: FilePath, resource: string) returns (ok: bool)
      modifies this`cover
      ensures ok <==> FileExists(fs, path)
      ensures ok ==> cover == NewFileMeta(fs, path, resource) && IsInSync(cover.value, fs, path.dir)
      ensures !ok ==> cover == old(cover)
    {
      var m := NewFileMeta(fs, path, resource);
      ok := m.Some?;
      if ok {
        cover := m;
      }
    }

    /** `set_background_meta`: records the file at `path` as the song's background. */
    method SetBackgroundMeta(fs: FS, path: FilePath, resource: string) returns (ok: bool)
      modifies this`background
      ensures ok <==> FileExists(fs, path)
      ensures ok ==> background == NewFileMeta(fs, path, resource) && IsInSync(background.value, fs, path.dir)
      ensures !ok ==> background == old(background)
    {
      var m := NewFileMeta(fs, path, resource);
      ok := m.Some?;
      if ok {
        background := m;
      }
    }

    /** The record's content as `attrs.asdict` stores it. */
    function ToJson(): (r: Json)
      reads this
      ensures r.JObject?
      ensures r.fields.Keys == {"song_id", "meta_tags", "txt", "audio", "video", "cover", "background", "version"}
      ensures StoredVersion(r) == Ok(version)
    {
      JObject(map[
        "song_id" := JInt(songId),
        "meta_tags" := JStr(metaTags),
        "txt" := EntryToJson(txt),
        "audio" := EntryToJson(audio),
        "video" := EntryToJson(video),
        "cover" := EntryToJson(cover),
        "background" := EntryToJson(background),
        "version" := JInt(version)])
    }
  }

  function EntryToJson(e: Option<FileMeta>): Json {
    if e.Some? then FileMetaToJson(e.value) else JNull
  }

  lemma EntryRoundTrip(e: Option<FileMeta>)
    ensures FromNestedDict(EntryToJson(e)) == Ok(e)
  {
    if e.Some? { FileMetaRoundTrip(e.value); }
  }

  /** The fields `from_dict` reads, decoded in the order Python evaluates them. */
  datatype Decoded = Decoded(
    songId: int, metaTags: string,
    txt: Option<FileMeta>, audio: Option<FileMeta>, video: Option<FileMeta>,
    cover: Option<FileMeta>, background: Option<FileMeta>)

  /** `from_dict` without building the object: the version check first, then the song id,
      the meta tags and the five entries. The song id is converted with `int`. */
  function DecodeDict(j: Json): (r: Result<Decoded, DecodeError>)
    ensures r == Err(SyncMetaTooNew) <==> StoredVersion(j).Ok? && StoredVersion(j).value > SyncMetaVersion
    ensures r.Ok? ==> StoredVersion(j).Ok? && StoredVersion(j).value <= SyncMetaVersion
    ensures r.Ok? ==> Get(j, "song_id").Ok? && IntOf(Get(j, "song_id").value) == Ok(r.value.songId)
    ensures r.Ok? ==> Get(j, "meta_tags").Ok? && StrOf(Get(j, "meta_tags").value) == Ok(r.value.metaTags)
    ensures r.Ok? ==> j.JObject? && {"txt", "audio", "video", "cover", "background"} <= j.fields.Keys
    ensures r.Ok? ==> (FromNestedDict(j.fields["txt"]) == Ok(r.value.txt)
      && FromNestedDict(j.fields["audio"]) == Ok(r.value.audio)
      && FromNestedDict(j.fields["video"]) == Ok(r.value.video)
      && FromNestedDict(j.fields["cover"]) == Ok(r.value.cover)
      && FromNestedDict(j.fields["background"]) == Ok(r.value.background))
  {
    var version :- Lift(StoredVersion(j));
    if version > SyncMetaVersion then Err(SyncMetaTooNew)
    else
      var sid :- Lift(Get(j, "song_id"));
      var songId :- Lift(IntOf(sid));
      var mt :- Lift(Get(j, "meta_tags"));
      var metaTags :- Lift(StrOf(mt));
      var t :- Lift(Get(j, "txt"));
      var txt :- Lift(FromNestedDict(t));
      var a :- Lift(Get(j, "audio"));
      var audio :- Lift(FromNestedDict(a));
      var v :- Lift(Get(j, "video"));
      var video :- Lift(FromNestedDict(v));
      var c :- Lift(Get(j, "cover"));
      var cover :- Lift(FromNestedDict(c));
      var b :- Lift(Get(j, "background"));
      var background :- Lift(FromNestedDict(b));
      Ok(Decoded(songId, metaTags, txt, audio, video, cover, background))
  }

  /** A record written by this version is read back as it was written. */
  lemma DictRoundTrip(m: SyncMeta)
    requires m.version <= SyncMetaVersion
    ensures DecodeDict(m.ToJson()) == Ok(Decoded(m.songId, m.metaTags, m.txt, m.audio, m.video, m.cover, m.background))
  {
    EntryRoundTrip(m.txt);
    EntryRoundTrip(m.audio);
    EntryRoundTrip(m.video);
    EntryRoundTrip(m.cover);
    EntryRoundTrip(m.background);
  }

  /** `SyncMeta.from_dict`: a new record from the decoded fields; its version is always
      the current one, whatever the file said. */
  method FromDict(j: Json) returns (r: Result<SyncMeta, DecodeError>)
    ensures r.Err? <==> DecodeDict(j).Err?
    ensures r.Err? ==> r.error == DecodeDict(j).error
    ensures r.Ok? ==> fresh(r.value) && r.value.version == SyncMetaVersion
    ensures r.Ok? ==> var d := DecodeDict(j).value;
      r.value.songId == d.songId && r.value.metaTags == d.metaTags
      && r.value.txt == d.txt && r.value.audio == d.audio && r.value.video == d.video
      && r.value.cover == d.cover && r.value.background == d.background
  {
    var d := DecodeDict(j);
    if d.Err? {
      return Err(d.error);
    }
    var m := new SyncMeta(d.value.songId, d.value.metaTags);
    m.txt, m.audio, m.video := d.value.txt, d.value.audio, d.value.video;
    m.cover, m.background := d.value.cover, d.value.background;
    return Ok(m);
  }

  /** `try_from_file`: the file's text is given already decoded (None for a
      JSONDecodeError). Decoding errors give None; a record from a newer release raises
      SyncMetaTooNewError, which is passed on (Err). */
  method TryFromFile(decoded: Option<Json>) returns (r: Result<Option<SyncMeta>, DecodeError>)
    ensures r.Err? <==> (decoded.Some? && StoredVersion(decoded.value).Ok?
      && StoredVersion(decoded.value).value > SyncMetaVersion)
    ensures r.Err? ==> r.error == SyncMetaTooNew
    ensures r == Ok(None) <==> decoded.None? || (DecodeDict(decoded.value).Err? && DecodeDict(decoded.value).error != SyncMetaTooNew)
    ensures r.Ok? && r.value.Some? ==> fresh(r.value.value)
    ensures r.Ok? && r.value.Some? ==> (decoded.Some? && DecodeDict(decoded.value).Ok?
      && var d := DecodeDict(decoded.value).value; var m := r.value.value;
      m.songId == d.songId && m.metaTags == d.metaTags
      && m.txt == d.txt && m.audio == d.audio && m.video == d.video
      && m.cover == d.cover && m.background == d.background && m.version == SyncMetaVersion)
  {
    if decoded.None? {
      return Ok(None);
    }
    var m := FromDict(decoded.value);
    if m.Err? {
      if m.error == SyncMetaTooNew {
        return Err(SyncMetaTooNew);
      }
      return Ok(None);
    }
    return Ok(Some(m.value));
  }
}
