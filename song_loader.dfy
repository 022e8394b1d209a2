/**
 * The per-song download pipeline of song_loader.py, stated as functions over the
 * state the pipeline threads through its stages: the file system, the song folder,
 * the five staged resource files, the resources handed to the fetchers, the txt
 * headers and the song's sync record. The Context class in song_loader_context.dfy
 * performs the same stages in place and is proved to agree with these functions.
 */
module SongLoader {
  import opened Wrappers
  import opened FileSystem
  import opened Utils
  import opened SyncMeta
  import UsdbScraper
  import UsdbSong
  import SongData

  // ---------------------------------------------------------------------------
  // Records

  /** The five kinds of resource file, in the order of the sync record. */
  const Txt: nat := 0
  const Audio: nat := 1
  const Video: nat := 2
  const Cover: nat := 3
  const Background: nat := 4

  /** `ResourceFile`s of a sync record, one per kind. */
  type Entries = s: seq<Option<FileMeta>> | |s| == 5 witness [None, None, None, None, None]

  /** The sync record a song folder carries (`SyncMeta` as song_loader.py uses it); the
      meta tags and the mtime it also holds are not part of this model. */
  datatype SyncRecord = SyncRecord(id: nat, songId: int, path: FilePath, pinned: bool, entries: Entries)

  /** `TempResourceFile`: where a resource currently lies and where it came from. */
  datatype TempResourceFile = TempResourceFile(oldPath: Option<FilePath>, newPath: Option<FilePath>,
                                               resource: Option<string>)
  {
    /** `path()`: the newly downloaded file if there is one, else the kept one. */
    function Path(): (r: Option<FilePath>)
      ensures newPath.Some? ==> r == newPath
      ensures newPath.None? ==> r == oldPath
    {
      if newPath.Some? then newPath else oldPath
    }

    /** `path_and_resource()`: set only when there is a path and a non-empty resource. */
    function PathAndResource(): (r: Option<(FilePath, string)>)
      ensures r.Some? <==> Path().Some? && resource.Some? && resource.value != ""
      ensures r.Some? ==> r.value == (Path().value, resource.value)
    {
      if Path().Some? && resource.Some? && resource.value != "" then Some((Path().value, resource.value))
      else None
    }

    /** `to_resource_file()`: the record entry for this file. `ResourceFile.new` reads the
        file's mtime, so a file that is not there raises. */
    function ToResourceFile(fs: FS): (r: Result<Option<FileMeta>, LoaderError>)
      ensures PathAndResource().None? ==> r == Ok(None)
      ensures r.Err? <==> PathAndResource().Some? && !FileExists(fs, PathAndResource().value.0)
      ensures r.Ok? && r.value.Some? ==> (PathAndResource().Some?
        && r.value.value.fname == PathAndResource().value.0.name
        && r.value.value.resource == PathAndResource().value.1
        && IsInSync(r.value.value, fs, PathAndResource().value.0.dir))
    {
      match PathAndResource()
      case None => Ok(None)
      case Some((path, resource)) =>
        match NewFileMeta(fs, path, resource)
        case None => Err(OtherError)
        case Some(m) => Ok(Some(m))
    }
  }

  const EmptySlot: TempResourceFile := TempResourceFile(None, None, None)

  /** `TempResourceFiles`: one slot per kind. */
  type Slots = s: seq<TempResourceFile> | |s| == 5 witness [EmptySlot, EmptySlot, EmptySlot, EmptySlot, EmptySlot]

  /** The file names the txt's headers point to. */
  datatype Headers = Headers(mp3: Option<string>, video: Option<string>, cover: Option<string>,
                             background: Option<string>)

  /** The `#VIDEO` meta tags as the pipeline reads them: the audio and video resources,
      the source URLs of the cover and background tags when those tags are present, and
      whether the song is audio only. */
  datatype MetaTags = MetaTags(audio: Option<string>, video: Option<string>, cover: Option<string>,
                               background: Option<string>, audioOnly: bool)

  /** Which parts the user wants; `backgroundAllowed` is what
      `download_background(bool(headers.video))` decides. */
  datatype Options = Options(txt: bool, audio: bool, video: bool, cover: bool, background: bool,
                             backgroundAllowed: bool)

  /** Why a run stops. */
  datatype LoaderError = LoginError | NotFoundError | OtherError

  /**
   * Everything a run reads but does not change: the song, the user's options, the parsed
   * txt, the USDB details (or the error fetching them raised), the directories, the clock,
   * the id a new record gets and its file name, and the fetchers. A fetcher returns the
   * extension (audio, video) or the file name in the temp directory (images) of what it
   * stored, or nothing.
   */
  datatype Env = Env(
    songId: int,
    usdbUrl: string,
    artistTitle: string,
    songDir: Dir,
    tempdir: Dir,
    options: Options,
    tags: MetaTags,
    txtHeaders: Headers,
    txtLanguage: Option<string>,
    txtEdition: Option<string>,
    details: Result<UsdbScraper.SongDetails, UsdbScraper.UsdbError>,
    now: Mtime,
    freshId: nat,
    idFilename: nat -> string,
    audioDl: string -> Option<string>,
    videoDl: string -> Option<string>,
    coverDl: string -> Option<string>,
    backgroundDl: string -> Option<string>)
  {
    /** `Locations.filename_stem`. */
    function Stem(): string {
      Sanitized(artistTitle)
    }
  }

  /** The state the stages pass on. */
  datatype RunState = RunState(
    fs: FS, folder: Dir, out: Slots, fetched: seq<string>, headers: Headers, record: SyncRecord)

  /** What every stage may rely on: the temp directory exists and is not the song folder. */
  predicate TempReady(s: RunState, env: Env) {
    env.tempdir in s.fs && s.folder != env.tempdir
  }

  // ---------------------------------------------------------------------------
  // Locations

  /** `Locations.file_path` and `temp_path`: `file`, or the stem when `file` is empty,
      in `dir`, followed by "." and `ext` when an extension is given. */
  function PathIn(dir: Dir, stem: string, file: string, ext: string): FilePath {
    var name := if file != "" then file else stem;
    FilePath(dir, if ext != "" then name + "." + ext else name)
  }

  /** A kept file is renamed to the stem, a dot and its ending; as the ending starts with
      a dot itself (or with " [CO]." / " [BG]."), the new name has the stem followed by
      two dots, or by a dot and the bracket tag. */
  lemma KeptNameAddsDot(dir: Dir, stem: string, fname: string)
    requires ResourceFileEnding(fname) != ""
    ensures PathIn(dir, stem, "", ResourceFileEnding(fname)).name == stem + "." + ResourceFileEnding(fname)
    ensures ResourceFileEnding(fname)[0] == '.' ==> StartsWith(PathIn(dir, stem, "", ResourceFileEnding(fname)).name, stem + "..")
  {
    var e := ResourceFileEnding(fname);
    var name := stem + "." + e;
    if e[0] == '.' {
      assert name[..|stem| + 2] == stem + "..";
    }
  }

  /** Renaming converges after one step: the renamed file has the same ending, so a later
      run's cleanup finds it already under its target name. */
  lemma KeptNameIsStable(dir: Dir, stem: string, fname: string)
    requires ResourceFileEnding(fname) != "" && '\n' !in stem
    ensures var renamed := PathIn(dir, stem, "", ResourceFileEnding(fname));
      ResourceFileEnding(renamed.name) == ResourceFileEnding(fname)
      && PathIn(dir, stem, "", ResourceFileEnding(renamed.name)) == renamed
  {
    EndingAfterStemDot(stem, ResourceFileEnding(fname));
  }

  /** `Locations.new`'s folder: the prior record's folder, or else the first free name
      among the stem and "stem (n)" in the song directory. */
  function NewFolder(prior: Option<SyncRecord>, songDir: Dir, stem: string, existing: set<Dir>): (r: Dir)
    ensures prior.Some? ==> r == prior.value.path.dir
    ensures prior.None? ==> r !in existing && Parent(r) == songDir && IsNameMaybeWithSuffix(DirName(r), stem)
  {
    if prior.Some? then prior.value.path.dir
    else
      var path := songDir + [stem];
      assert Parent(path) == songDir && DirName(path) == stem by {
        assert path[..|path| - 1] == songDir;
      }
      NextUniqueSpec(path, existing);
      NextUniqueNameAccepted(path, existing);
      NextUnique(path, existing)
  }

  /** `SyncMeta.new` (not part of this model): a record without files, not pinned, stored
      in the song folder under its id's file name. */
  function NewRecord(env: Env, folder: Dir): (r: SyncRecord)
    ensures r.id == env.freshId && !r.pinned && r.songId == env.songId
    ensures forall k :: 0 <= k < 5 ==> r.entries[k].None?
  {
    SyncRecord(env.freshId, env.songId, FilePath(folder, env.idFilename(env.freshId)), false,
               [None, None, None, None, None])
  }

  // ---------------------------------------------------------------------------
  // Seeding

  /** A prior entry kept for reuse: only when it is in sync with the folder. */
  function Seeded(entry: Option<FileMeta>, fs: FS, folder: Dir, stem: string): (r: TempResourceFile)
    ensures r.newPath.None?
    ensures r.resource.Some? <==> entry.Some? && IsInSync(entry.value, fs, folder)
    ensures r.resource.Some? ==> (r.resource.value == entry.value.resource
      && r.oldPath == Some(PathIn(folder, stem, entry.value.fname, "")))
    ensures r.resource.None? ==> r == EmptySlot
  {
    if entry.Some? && IsInSync(entry.value, fs, folder) then
      TempResourceFile(Some(PathIn(folder, stem, entry.value.fname, "")), None, Some(entry.value.resource))
    else EmptySlot
  }

  /** `Context.__attrs_post_init__`: the audio, video, cover and background slots take over
      the prior entries that are in sync; the txt slot is never seeded. */
  function SeedSlots(record: SyncRecord, fs: FS, folder: Dir, stem: string): (r: Slots)
    ensures r[Txt] == EmptySlot
    ensures forall k :: Audio <= k <= Background ==> r[k] == Seeded(record.entries[k], fs, folder, stem)
  {
    [EmptySlot] + seq(4, i requires 0 <= i < 4 => Seeded(record.entries[i + 1], fs, folder, stem))
  }

  /** With no prior record the new one lists no files, so nothing is seeded. */
  lemma FreshRecordSeedsNothing(env: Env, folder: Dir, fs: FS)
    ensures forall k :: 0 <= k < 5 ==> SeedSlots(NewRecord(env, folder), fs, folder, env.Stem())[k] == EmptySlot
  {
  }

  /** The state `Context.new` starts the stages from: the temp directory exists, the folder
      is chosen, the record exists (a new one when there was none) and the slots are seeded. */
  function InitialState(fs0: FS, prior: Option<SyncRecord>, env: Env): (r: RunState)
    requires env.tempdir !in fs0
    requires prior.Some? ==> prior.value.path.dir != env.tempdir
    ensures TempReady(r, env)
    ensures r.fs == MakeDir(fs0, env.tempdir) && r.fetched == [] && r.headers == env.txtHeaders
    ensures r.folder == NewFolder(prior, env.songDir, env.Stem(), ExistingPaths(r.fs))
    ensures prior.Some? ==> r.record == prior.value
    ensures prior.None? ==> r.record == NewRecord(env, r.folder)
    ensures r.out == SeedSlots(r.record, r.fs, r.folder, env.Stem())
  {
    var fs := MakeDir(fs0, env.tempdir);
    var folder := NewFolder(prior, env.songDir, env.Stem(), ExistingPaths(fs));
    assert folder != env.tempdir by {
      if prior.None? {
        assert env.tempdir in ExistingPaths(fs);
      }
    }
    var record := if prior.Some? then prior.value else NewRecord(env, folder);
    RunState(fs, folder, SeedSlots(record, fs, folder, env.Stem()), [], env.txtHeaders, record)
  }

  // ---------------------------------------------------------------------------
  // Download stages

  /** A fetcher's answer counts as success when it is a non-empty extension. */
  predicate Succeeds(answer: Option<string>) {
    answer.Some? && answer.value != ""
  }

  predicate Truthy(o: Option<string>) {
    o.Some? && o.value != ""
  }

  /** `all_video_resources`: the video meta tag, then the comment videos. */
  function VideoCandidates(tags: MetaTags, details: UsdbScraper.SongDetails): (r: seq<string>)
    ensures |details.AllCommentVideos()| <= |r| <= |details.AllCommentVideos()| + 1
    ensures r[|r| - |details.AllCommentVideos()|..] == details.AllCommentVideos()
    ensures Truthy(tags.video) ==> |r| > 0 && r[0] == tags.video.value
  {
    (if Truthy(tags.video) then [tags.video.value] else []) + details.AllCommentVideos()
  }

  /** `all_audio_resources`: the audio meta tag, then the video candidates. */
  function AudioCandidates(tags: MetaTags, details: UsdbScraper.SongDetails): (r: seq<string>)
    ensures |VideoCandidates(tags, details)| <= |r| <= |VideoCandidates(tags, details)| + 1
    ensures r[|r| - |VideoCandidates(tags, details)|..] == VideoCandidates(tags, details)
    ensures Truthy(tags.audio) ==> |r| > 0 && r[0] == tags.audio.value
  {
    (if Truthy(tags.audio) then [tags.audio.value] else []) + VideoCandidates(tags, details)
  }

  /** The candidates in the order they are tried: the audio tag, the video tag, then the
      comments' videos in comment order, each comment's YouTube ids first. */
  lemma CandidateOrder(tags: MetaTags, details: UsdbScraper.SongDetails, v: string)
    ensures Truthy(tags.audio) ==> AudioCandidates(tags, details)[0] == tags.audio.value
    ensures !Truthy(tags.audio) && Truthy(tags.video) ==> AudioCandidates(tags, details)[0] == tags.video.value
    ensures v in VideoCandidates(tags, details) <==>
      (Truthy(tags.video) && v == tags.video.value)
      || exists i :: 0 <= i < |details.comments| && UsdbScraper.InComment(details.comments[i], v)
    ensures v in AudioCandidates(tags, details) <==>
      (Truthy(tags.audio) && v == tags.audio.value) || v in VideoCandidates(tags, details)
  {
  }

  /** `islice(candidates, 10)`. */
  function FirstTen(cands: seq<string>): (r: seq<string>)
    ensures |r| <= 10 && |r| <= |cands| && r == cands[..|r|]
    ensures |cands| <= 10 ==> r == cands
  {
    if |cands| <= 10 then cands else cands[..10]
  }

  /** How the candidate loop ends. */
  datatype Fetch = Unchanged(at: nat) | Fetched(at: nat, ext: string) | AllFailed

  /** The candidate loop from position `i`: it stops at the first candidate equal to the
      slot's resource without fetching it, or at the first candidate whose fetch succeeds. */
  function FirstFetch(resource: Option<string>, cands: seq<string>, dl: string -> Option<string>, i: nat)
    : (r: Fetch)
    requires i <= |cands|
    ensures r.Unchanged? ==> i <= r.at < |cands| && resource == Some(cands[r.at])
    ensures r.Fetched? ==> (i <= r.at < |cands| && resource != Some(cands[r.at])
      && dl(cands[r.at]) == Some(r.ext) && r.ext != "")
    decreases |cands| - i
  {
    if i == |cands| then AllFailed
    else if resource == Some(cands[i]) then Unchanged(i)
    else if Succeeds(dl(cands[i])) then Fetched(i, dl(cands[i]).value)
    else FirstFetch(resource, cands, dl, i + 1)
  }

  /** The loop stops at the first candidate that is either the current resource or
      fetched successfully: every candidate before it is neither. */
  lemma {:induction false} FirstFetchIsFirst(resource: Option<string>, cands: seq<string>,
                                             dl: string -> Option<string>, i: nat)
    requires i <= |cands|
    ensures var r := FirstFetch(resource, cands, dl, i);
      var stop := if r.AllFailed? then |cands| else r.at;
      forall j :: i <= j < stop ==> resource != Some(cands[j]) && !Succeeds(dl(cands[j]))
    decreases |cands| - i
  {
    if i < |cands| && resource != Some(cands[i]) && !Succeeds(dl(cands[i])) {
      FirstFetchIsFirst(resource, cands, dl, i + 1);
    }
  }

  /** The candidates handed to the fetcher before the loop ended. */
  function Tried(cands: seq<string>, f: Fetch): seq<string>
    requires f.Unchanged? || f.Fetched? ==> f.at < |cands|
  {
    match f
    case Unchanged(at) => cands[..at]
    case Fetched(at, _) => cands[..at + 1]
    case AllFailed => cands
  }

  /** `_maybe_download_audio` / `_maybe_download_video` for slot `k`: a successful fetch
      stores "stem.ext" in the temp directory and takes over the slot. */
  function AvStage(s: RunState, env: Env, k: nat, enabled: bool, cands: seq<string>,
                   dl: string -> Option<string>): (r: RunState)
    requires k < 5 && TempReady(s, env)
    ensures TempReady(r, env) && r.fs.Keys == s.fs.Keys
    ensures r.folder == s.folder && r.headers == s.headers && r.record == s.record
    ensures forall j :: 0 <= j < 5 && j != k ==> r.out[j] == s.out[j]
    ensures !enabled ==> r == s
    ensures enabled ==> var f := FirstFetch(s.out[k].resource, FirstTen(cands), dl, 0);
      r.fetched == s.fetched + Tried(FirstTen(cands), f)
      && (f.Unchanged? || f.AllFailed? ==> r.out == s.out && r.fs == s.fs)
      && (f.Fetched? ==>
        var p := PathIn(env.tempdir, env.Stem(), "", f.ext);
        r.out[k] == s.out[k].(resource := Some(FirstTen(cands)[f.at]), newPath := Some(p))
        && r.fs == WriteFile(s.fs, p, env.now))
  {
    if !enabled then s
    else
      var ten := FirstTen(cands);
      var f := FirstFetch(s.out[k].resource, ten, dl, 0);
      match f
      case Unchanged(_) => s.(fetched := s.fetched + Tried(ten, f))
      case AllFailed => s.(fetched := s.fetched + Tried(ten, f))
      case Fetched(at, ext) =>
        var p := PathIn(env.tempdir, env.Stem(), "", ext);
        s.(fs := WriteFile(s.fs, p, env.now),
           out := s.out[k := s.out[k].(resource := Some(ten[at]), newPath := Some(p))],
           fetched := s.fetched + Tried(ten, f))
  }

  /** A candidate that is the current resource ends the loop with only the ones before it
      recorded as tried. */
  lemma AvStageUnchangedAt(s: RunState, env: Env, k: nat, cands: seq<string>, dl: string -> Option<string>, i: nat)
    requires k < 5 && TempReady(s, env) && i < |FirstTen(cands)|
    requires FirstFetch(s.out[k].resource, FirstTen(cands), dl, 0) == FirstFetch(s.out[k].resource, FirstTen(cands), dl, i)
    requires s.out[k].resource == Some(FirstTen(cands)[i])
    ensures AvStage(s, env, k, true, cands, dl) == s.(fetched := s.fetched + FirstTen(cands)[..i])
  {
  }

  /** A candidate that downloads takes over the slot and ends the loop. */
  lemma AvStageFetchedAt(s: RunState, env: Env, k: nat, cands: seq<string>, dl: string -> Option<string>, i: nat)
    requires k < 5 && TempReady(s, env) && i < |FirstTen(cands)|
    requires FirstFetch(s.out[k].resource, FirstTen(cands), dl, 0) == FirstFetch(s.out[k].resource, FirstTen(cands), dl, i)
    requires s.out[k].resource != Some(FirstTen(cands)[i]) && Succeeds(dl(FirstTen(cands)[i]))
    ensures var ten := FirstTen(cands);
      var p := PathIn(env.tempdir, env.Stem(), "", dl(ten[i]).value);
      AvStage(s, env, k, true, cands, dl)
      == s.(fs := WriteFile(s.fs, p, env.now),
            out := s.out[k := s.out[k].(resource := Some(ten[i]), newPath := Some(p))],
            fetched := (s.fetched + ten[..i]) + [ten[i]])
  {
    TakeOneMore(s.fetched, FirstTen(cands), i);
  }

  /** A candidate that is neither leaves the outcome to the ones after it. */
  lemma FirstFetchSkips(resource: Option<string>, cands: seq<string>, dl: string -> Option<string>, i: nat)
    requires i < |cands| && resource != Some(cands[i]) && !Succeeds(dl(cands[i]))
    ensures FirstFetch(resource, cands, dl, i) == FirstFetch(resource, cands, dl, i + 1)
  {
  }

  /** When every candidate fails, the loop only records that it tried them all. */
  lemma AvStageAllFailed(s: RunState, env: Env, k: nat, cands: seq<string>, dl: string -> Option<string>)
    requires k < 5 && TempReady(s, env)
    requires FirstFetch(s.out[k].resource, FirstTen(cands), dl, 0) == AllFailed
    ensures AvStage(s, env, k, true, cands, dl) == s.(fetched := s.fetched + FirstTen(cands))
  {
  }

  function AudioStage(s: RunState, env: Env, details: UsdbScraper.SongDetails): (r: RunState)
    requires TempReady(s, env)
    ensures TempReady(r, env) && r.folder == s.folder && r.record == s.record
    ensures forall j :: 0 <= j < 5 && j != Audio ==> r.out[j] == s.out[j]
    ensures !env.options.audio ==> r == s
    ensures r.out[Audio].resource != s.out[Audio].resource ==>
      r.out[Audio].resource.Some? && r.out[Audio].resource.value in AudioCandidates(env.tags, details)
  {
    AvStage(s, env, Audio, env.options.audio, AudioCandidates(env.tags, details), env.audioDl)
  }

  /** Video is not looked for at all when it is switched off or the song is audio only. */
  function VideoStage(s: RunState, env: Env, details: UsdbScraper.SongDetails): (r: RunState)
    requires TempReady(s, env)
    ensures TempReady(r, env) && r.folder == s.folder && r.record == s.record
    ensures forall j :: 0 <= j < 5 && j != Video ==> r.out[j] == s.out[j]
    ensures !env.options.video || env.tags.audioOnly ==> r == s
    ensures r.out[Video].resource != s.out[Video].resource ==>
      r.out[Video].resource.Some? && r.out[Video].resource.value in VideoCandidates(env.tags, details)
  {
    AvStage(s, env, Video, env.options.video && !env.tags.audioOnly, VideoCandidates(env.tags, details), env.videoDl)
  }

  /** `cover_url`: the cover tag's URL when the tag is present, else USDB's own cover. */
  function CoverUrl(tags: MetaTags, details: UsdbScraper.SongDetails): (r: Option<string>)
    ensures tags.cover.Some? ==> r == tags.cover
    ensures tags.cover.None? && Truthy(details.coverUrl) ==> r == details.coverUrl
    ensures tags.cover.None? && !Truthy(details.coverUrl) ==> r.None?
  {
    if tags.cover.Some? then tags.cover
    else if Truthy(details.coverUrl) then details.coverUrl
    else None
  }

  /** `_maybe_download_cover` / `_maybe_download_background` for slot `k`: nothing happens
      when switched off, without a URL or when the URL is the slot's resource; a failed
      fetch keeps the slot as it is. */
  function ImageStage(s: RunState, env: Env, k: nat, enabled: bool, url: Option<string>,
                      dl: string -> Option<string>): (r: RunState)
    requires k < 5 && TempReady(s, env)
    ensures TempReady(r, env) && r.fs.Keys == s.fs.Keys
    ensures r.folder == s.folder && r.headers == s.headers && r.record == s.record
    ensures forall j :: 0 <= j < 5 && j != k ==> r.out[j] == s.out[j]
    ensures !enabled || !Truthy(url) || s.out[k].resource == url ==> r == s
    ensures enabled && Truthy(url) && s.out[k].resource != url ==>
      r.fetched == s.fetched + [url.value]
      && (dl(url.value).None? ==> r.out == s.out && r.fs == s.fs)
      && (dl(url.value).Some? ==>
        var p := FilePath(env.tempdir, dl(url.value).value);
        r.out[k] == s.out[k].(resource := url, newPath := Some(p)) && r.fs == WriteFile(s.fs, p, env.now))
  {
    if !enabled || !Truthy(url) || s.out[k].resource == url then s
    else
      match dl(url.value)
      case None => s.(fetched := s.fetched + [url.value])
      case Some(name) =>
        var p := FilePath(env.tempdir, name);
        s.(fs := WriteFile(s.fs, p, env.now),
           out := s.out[k := s.out[k].(resource := url, newPath := Some(p))],
           fetched := s.fetched + [url.value])
  }

  function CoverStage(s: RunState, env: Env, details: UsdbScraper.SongDetails): (r: RunState)
    requires TempReady(s, env)
    ensures TempReady(r, env) && r.folder == s.folder && r.record == s.record
    ensures forall j :: 0 <= j < 5 && j != Cover ==> r.out[j] == s.out[j]
    ensures !env.options.cover ==> r == s
    ensures r.out[Cover].resource != s.out[Cover].resource ==>
      r.out[Cover].resource == CoverUrl(env.tags, details)
  {
    ImageStage(s, env, Cover, env.options.cover, CoverUrl(env.tags, details), env.coverDl)
  }

  /** The background comes only from its meta tag. */
  function BackgroundStage(s: RunState, env: Env): (r: RunState)
    requires TempReady(s, env)
    ensures TempReady(r, env) && r.folder == s.folder && r.record == s.record
    ensures forall j :: 0 <= j < 5 && j != Background ==> r.out[j] == s.out[j]
    ensures !env.options.background || !env.options.backgroundAllowed ==> r == s
    ensures r.out[Background].resource != s.out[Background].resource ==>
      r.out[Background].resource == env.tags.background
  {
    ImageStage(s, env, Background, env.options.background && env.options.backgroundAllowed,
               env.tags.background, env.backgroundDl)
  }

  /** The four download stages in order. */
  function Downloads(s: RunState, env: Env, details: UsdbScraper.SongDetails): (r: RunState)
    requires TempReady(s, env)
    ensures TempReady(r, env) && r.fs.Keys == s.fs.Keys
    ensures r.folder == s.folder && r.headers == s.headers && r.record == s.record
    ensures r.out[Txt] == s.out[Txt]
  {
    var s1 := AudioStage(s, env, details);
    var s2 := VideoStage(s1, env, details);
    var s3 := CoverStage(s2, env, details);
    BackgroundStage(s3, env)
  }

  /** When every slot already holds the first resource its stage would try, a run fetches
      nothing and the downloads leave the state as it is. */
  lemma UnchangedResourcesFetchNothing(s: RunState, env: Env, details: UsdbScraper.SongDetails)
    requires TempReady(s, env)
    requires env.options.audio ==> var c := FirstTen(AudioCandidates(env.tags, details));
      |c| > 0 && s.out[Audio].resource == Some(c[0])
    requires env.options.video && !env.tags.audioOnly ==> var c := FirstTen(VideoCandidates(env.tags, details));
      |c| > 0 && s.out[Video].resource == Some(c[0])
    requires env.options.cover ==> s.out[Cover].resource == CoverUrl(env.tags, details) || !Truthy(CoverUrl(env.tags, details))
    requires env.options.background && env.options.backgroundAllowed ==>
      s.out[Background].resource == env.tags.background || !Truthy(env.tags.background)
    ensures Downloads(s, env, details) == s
  {
    var s1 := AudioStage(s, env, details);
    if env.options.audio {
      var c := FirstTen(AudioCandidates(env.tags, details));
      assert FirstFetch(s.out[Audio].resource, c, env.audioDl, 0) == Unchanged(0);
      assert c[..0] == [];
    }
    assert s1 == s;
    var s2 := VideoStage(s1, env, details);
    if env.options.video && !env.tags.audioOnly {
      var c := FirstTen(VideoCandidates(env.tags, details));
      assert FirstFetch(s.out[Video].resource, c, env.videoDl, 0) == Unchanged(0);
      assert c[..0] == [];
    }
    assert s2 == s;
  }

  /** `_maybe_write_audio_tags`: the tag writer is chosen by the audio slot's resource
      string; only ".m4a", ".mp3" and ".ogg" select one, which then rewrites the file. A
      writer that fails is ignored. */
  function TagStage(s: RunState, env: Env): (r: RunState)
    ensures r.fs.Keys == s.fs.Keys && r.out == s.out && r.folder == s.folder && r.fetched == s.fetched
    ensures r.headers == s.headers && r.record == s.record
    ensures r.fs != s.fs ==> (env.options.audio && s.out[Audio].PathAndResource().Some?
      && s.out[Audio].resource.value in {".m4a", ".mp3", ".ogg"})
  {
    if !env.options.audio then s
    else
      match s.out[Audio].PathAndResource()
      case None => s
      case Some((path, resource)) =>
        if resource in {".m4a", ".mp3", ".ogg"} && FileExists(s.fs, path) then s.(fs := WriteFile(s.fs, path, env.now))
        else s
  }

  /** An audio resource is a URL, which never selects a tag writer. */
  lemma UrlSelectsNoTagWriter(s: RunState, env: Env)
    requires s.out[Audio].resource.Some? && StartsWith(s.out[Audio].resource.value, "http")
    ensures TagStage(s, env) == s
  {
    var resource := s.out[Audio].resource.value;
    assert resource[0] == 'h';
    assert resource !in {".m4a", ".mp3", ".ogg"} by {
      assert ".m4a"[0] == '.' && ".mp3"[0] == '.' && ".ogg"[0] == '.';
    }
  }

  // ---------------------------------------------------------------------------
  // Commit steps

  /** `_cleanup_exisiting_resource` for one prior entry: one that was not seeded is trashed
      from the folder, a seeded one with a new download is trashed, and a kept one is
      renamed to stem + "." + its ending unless it already has that name. */
  function CleanupEntry(s: RunState, env: Env, k: nat): (r: Result<RunState, LoaderError>)
    requires k < 5
    ensures r.Ok? ==> r.value.fs.Keys == s.fs.Keys && r.value.folder == s.folder
    ensures r.Ok? ==> r.value.fetched == s.fetched && r.value.headers == s.headers && r.value.record == s.record
    ensures r.Ok? ==> forall j :: 0 <= j < 5 && j != k ==> r.value.out[j] == s.out[j]
    ensures r.Ok? ==> r.value.out[k].newPath == s.out[k].newPath && r.value.out[k].resource == s.out[k].resource
    ensures s.record.entries[k].None? ==> r == Ok(s)
    ensures s.record.entries[k].Some? && s.out[k].oldPath.None? ==>
      r == Ok(s.(fs := Trash(s.fs, PathIn(s.folder, env.Stem(), s.record.entries[k].value.fname, ""))))
    ensures s.record.entries[k].Some? && s.out[k].oldPath.Some? && s.out[k].newPath.Some? ==>
      r == Ok(s.(fs := Trash(s.fs, s.out[k].oldPath.value))) && !FileExists(r.value.fs, s.out[k].oldPath.value)
    ensures s.record.entries[k].Some? && s.out[k].oldPath.Some? && s.out[k].newPath.None? ==>
      var target := PathIn(s.folder, env.Stem(), "", ResourceFileEnding(s.record.entries[k].value.fname));
      (s.out[k].oldPath.value == target ==> r == Ok(s))
      && (s.out[k].oldPath.value != target ==>
        (r.Ok? <==> FileExists(s.fs, s.out[k].oldPath.value) && target.dir in s.fs)
        && (r.Ok? ==> (r.value.out[k].oldPath == Some(target)
            && MtimeOf(r.value.fs, target) == MtimeOf(s.fs, s.out[k].oldPath.value))))
  {
    var entry := s.record.entries[k];
    var slot := s.out[k];
    if entry.None? then Ok(s)
    else if slot.oldPath.None? then
      Ok(s.(fs := Trash(s.fs, PathIn(s.folder, env.Stem(), entry.value.fname, ""))))
    else if slot.newPath.Some? then
      Ok(s.(fs := Trash(s.fs, slot.oldPath.value)))
    else
      var target := PathIn(s.folder, env.Stem(), "", ResourceFileEnding(entry.value.fname));
      if slot.oldPath.value == target then Ok(s)
      else
        match Rename(s.fs, slot.oldPath.value, target)
        case Err(_) => Err(OtherError)
        case Ok(fs) => Ok(s.(fs := fs, out := s.out[k := slot.(oldPath := Some(target))]))
  }

  /** The cleanup of the entries from `k` on. */
  function CleanupFrom(s: RunState, env: Env, k: nat): (r: Result<RunState, LoaderError>)
    requires k <= 5
    ensures r.Err? ==> r.error == OtherError
    ensures r.Ok? ==> r.value.fs.Keys == s.fs.Keys && r.value.folder == s.folder
    ensures r.Ok? ==> r.value.fetched == s.fetched && r.value.headers == s.headers && r.value.record == s.record
    ensures r.Ok? ==> forall j :: 0 <= j < 5 ==> (r.value.out[j].newPath == s.out[j].newPath
      && r.value.out[j].resource == s.out[j].resource)
    ensures r.Ok? ==> forall j :: 0 <= j < k ==> r.value.out[j] == s.out[j]
    decreases 5 - k
  {
    if k == 5 then Ok(s)
    else
      var s1 :- CleanupEntry(s, env, k);
      CleanupFrom(s1, env, k + 1)
  }

  /** `_ensure_correct_folder_name`: the folder is created, and renamed to the first free
      name among the stem and "stem (n)" next to it unless its name is already one of
      those. A folder path without a name, or an empty stem, makes `with_name` raise. */
  function EnsureFolder(s: RunState, env: Env): (r: Result<RunState, LoaderError>)
    requires TempReady(s, env)
    ensures r.Err? ==> r.error == OtherError
    ensures r.Ok? ==> TempReady(r.value, env) && r.value.folder in r.value.fs
    ensures r.Ok? ==> IsNameMaybeWithSuffix(DirName(r.value.folder), env.Stem())
    ensures r.Ok? ==> (r.value.out == s.out && r.value.fetched == s.fetched
      && r.value.headers == s.headers && r.value.record == s.record)
    ensures IsNameMaybeWithSuffix(DirName(s.folder), env.Stem()) ==>
      r == Ok(s.(fs := MakeDir(s.fs, s.folder)))
  {
    var fs := MakeDir(s.fs, s.folder);
    if IsNameMaybeWithSuffix(DirName(s.folder), env.Stem()) then Ok(s.(fs := fs))
    else if |s.folder| == 0 || env.Stem() == "" then Err(OtherError)
    else
      var sibling := WithName(s.folder, env.Stem());
      var existing := ExistingPaths(fs);
      NextUniqueSpec(sibling, existing);
      NextUniqueNameAccepted(sibling, existing);
      var target := NextUnique(sibling, existing);
      assert target != s.folder && target != env.tempdir by {
        assert s.folder in existing && env.tempdir in existing;
      }
      Ok(s.(fs := RenameDir(fs, s.folder, target), folder := target))
  }

  /** A folder whose name does not fit the stem is renamed to the first free sibling
      named after it. */
  lemma EnsureFolderRenames(s: RunState, env: Env, target: Dir)
    requires TempReady(s, env)
    requires !IsNameMaybeWithSuffix(DirName(s.folder), env.Stem()) && |s.folder| > 0 && env.Stem() != ""
    requires target == NextUnique(WithName(s.folder, env.Stem()), ExistingPaths(MakeDir(s.fs, s.folder)))
    ensures s.folder in MakeDir(s.fs, s.folder) && target !in MakeDir(s.fs, s.folder)
    ensures EnsureFolder(s, env) == Ok(s.(fs := RenameDir(MakeDir(s.fs, s.folder), s.folder, target), folder := target))
  {
    NextUniqueSpec(WithName(s.folder, env.Stem()), ExistingPaths(MakeDir(s.fs, s.folder)));
  }

  /** A renamed folder keeps its contents under a free name beside the old one, and the
      old name no longer exists. */
  lemma EnsureFolderMoves(s: RunState, env: Env)
    requires TempReady(s, env)
    ensures var r := EnsureFolder(s, env);
      r.Ok? && r.value.folder != s.folder ==>
        s.folder !in r.value.fs && Parent(r.value.folder) == Parent(s.folder)
        && r.value.fs[r.value.folder] == MakeDir(s.fs, s.folder)[s.folder]
        && r.value.fs.Keys == MakeDir(s.fs, s.folder).Keys - {s.folder} + {r.value.folder}
  {
    if !IsNameMaybeWithSuffix(DirName(s.folder), env.Stem()) && |s.folder| > 0 && env.Stem() != "" {
      EnsureFolderRenames(s, env, NextUnique(WithName(s.folder, env.Stem()), ExistingPaths(MakeDir(s.fs, s.folder))));
    }
  }

  /** `_write_headers`: each media header names the file its slot now points to. */
  function WriteHeaders(out: Slots, h: Headers): (r: Headers)
    ensures out[Audio].Path().Some? ==> r.mp3 == Some(out[Audio].Path().value.name)
    ensures out[Audio].Path().None? ==> r.mp3 == h.mp3
    ensures out[Video].Path().Some? ==> r.video == Some(out[Video].Path().value.name)
    ensures out[Video].Path().None? ==> r.video == h.video
    ensures out[Cover].Path().Some? ==> r.cover == Some(out[Cover].Path().value.name)
    ensures out[Cover].Path().None? ==> r.cover == h.cover
    ensures out[Background].Path().Some? ==> r.background == Some(out[Background].Path().value.name)
    ensures out[Background].Path().None? ==> r.background == h.background
  {
    Headers(
      if out[Audio].Path().Some? then Some(out[Audio].Path().value.name) else h.mp3,
      if out[Video].Path().Some? then Some(out[Video].Path().value.name) else h.video,
      if out[Cover].Path().Some? then Some(out[Cover].Path().value.name) else h.cover,
      if out[Background].Path().Some? then Some(out[Background].Path().value.name) else h.background)
  }

  /** `_maybe_write_txt`: the headers are updated and the txt is written to the temp
      directory as "stem.txt", with the song's USDB URL as its resource. */
  function WriteTxt(s: RunState, env: Env): (r: RunState)
    requires TempReady(s, env)
    ensures TempReady(r, env) && r.fs.Keys == s.fs.Keys && r.folder == s.folder
    ensures r.fetched == s.fetched && r.record == s.record
    ensures forall j :: Audio <= j < 5 ==> r.out[j] == s.out[j]
    ensures !env.options.txt ==> r == s
    ensures env.options.txt ==> (r.headers == WriteHeaders(s.out, s.headers)
      && r.out[Txt] == s.out[Txt].(newPath := Some(PathIn(env.tempdir, env.Stem(), "", "txt")), resource := Some(env.usdbUrl))
      && r.fs == WriteFile(s.fs, PathIn(env.tempdir, env.Stem(), "", "txt"), env.now))
  {
    if !env.options.txt then s
    else
      var p := PathIn(env.tempdir, env.Stem(), "", "txt");
      s.(headers := WriteHeaders(s.out, s.headers),
         fs := WriteFile(s.fs, p, env.now),
         out := s.out[Txt := s.out[Txt].(newPath := Some(p), resource := Some(env.usdbUrl))])
  }

  /** `_persist_tempfiles` for slot `k`: a new file moves into the folder under its own
      name, after whatever lay there is trashed. */
  function PersistSlot(s: RunState, env: Env, k: nat): (r: Result<RunState, LoaderError>)
    requires k < 5
    ensures r.Ok? ==> r.value.fs.Keys == s.fs.Keys && r.value.folder == s.folder
    ensures r.Ok? ==> r.value.fetched == s.fetched && r.value.headers == s.headers && r.value.record == s.record
    ensures r.Ok? ==> forall j :: 0 <= j < 5 && j != k ==> r.value.out[j] == s.out[j]
    ensures r.Ok? ==> r.value.out[k].oldPath == s.out[k].oldPath && r.value.out[k].resource == s.out[k].resource
    ensures s.out[k].newPath.None? ==> r == Ok(s)
    ensures s.out[k].newPath.Some? ==>
      var src := s.out[k].newPath.value;
      var target := PathIn(s.folder, env.Stem(), src.name, "");
      (r.Ok? <==> FileExists(Trash(s.fs, target), src) && s.folder in s.fs)
      && (r.Ok? ==> r.value.out[k].newPath == Some(target) && MtimeOf(r.value.fs, target) == MtimeOf(s.fs, src))
  {
    var slot := s.out[k];
    if slot.newPath.None? then Ok(s)
    else
      var target := PathIn(s.folder, env.Stem(), slot.newPath.value.name, "");
      var fs := Trash(s.fs, target);
      match Rename(fs, slot.newPath.value, target)
      case Err(_) => Err(OtherError)
      case Ok(fs') =>
        assert slot.newPath.value != target ==> MtimeOf(fs, slot.newPath.value) == MtimeOf(s.fs, slot.newPath.value);
        Ok(s.(fs := fs', out := s.out[k := slot.(newPath := Some(target))]))
  }

  function PersistFrom(s: RunState, env: Env, k: nat): (r: Result<RunState, LoaderError>)
    requires k <= 5
    ensures r.Err? ==> r.error == OtherError
    ensures r.Ok? ==> r.value.fs.Keys == s.fs.Keys && r.value.folder == s.folder
    ensures r.Ok? ==> r.value.fetched == s.fetched && r.value.headers == s.headers && r.value.record == s.record
    ensures r.Ok? ==> forall j :: 0 <= j < 5 ==> (r.value.out[j].oldPath == s.out[j].oldPath
      && r.value.out[j].resource == s.out[j].resource)
    ensures r.Ok? ==> forall j :: 0 <= j < k ==> r.value.out[j] == s.out[j]
    ensures r.Ok? ==> forall j :: 0 <= j < 5 && s.out[j].newPath.None? ==> r.value.out[j] == s.out[j]
    decreases 5 - k
  {
    if k == 5 then Ok(s)
    else
      var s1 :- PersistSlot(s, env, k);
      PersistFrom(s1, env, k + 1)
  }

  /** Leaving `TemporaryDirectory` removes the temp directory with whatever is left in it. */
  function DropTemp(s: RunState, env: Env): (r: RunState)
    ensures r.fs.Keys == s.fs.Keys - {env.tempdir}
    ensures forall d :: d in s.fs && d != env.tempdir ==> r.fs[d] == s.fs[d]
    ensures r.folder == s.folder && r.out == s.out && r.record == s.record
  {
    s.(fs := s.fs - {env.tempdir})
  }

  /** The record entries of the slots from `k` on, in order; the first file that is
      missing makes it raise. */
  function ResourceFilesFrom(out: Slots, fs: FS, k: nat): (r: Result<seq<Option<FileMeta>>, LoaderError>)
    requires k <= 5
    ensures r.Ok? ==> |r.value| == 5 - k
    ensures r.Ok? ==> forall j :: k <= j < 5 ==> out[j].ToResourceFile(fs) == Ok(r.value[j - k])
    ensures r.Err? <==> exists j :: k <= j < 5 && out[j].ToResourceFile(fs).Err?
    decreases 5 - k
  {
    if k == 5 then Ok([])
    else
      var m :- out[k].ToResourceFile(fs);
      var rest :- ResourceFilesFrom(out, fs, k + 1);
      Ok([m] + rest)
  }

  /** `_write_sync_meta`: the record keeps its id and pin, moves to the folder under the
      id's file name, lists the slots' files and is written to disk. */
  function WriteSyncMeta(s: RunState, env: Env): (r: Result<RunState, LoaderError>)
    ensures r.Ok? ==> (r.value.record.id == s.record.id && r.value.record.pinned == s.record.pinned
      && r.value.record.songId == env.songId
      && r.value.record.path == PathIn(s.folder, env.Stem(), env.idFilename(s.record.id), "")
      && forall k :: 0 <= k < 5 ==> s.out[k].ToResourceFile(s.fs) == Ok(r.value.record.entries[k]))
    ensures r.Ok? ==> s.folder in s.fs && r.value.fs == WriteFile(s.fs, r.value.record.path, env.now)
    ensures r.Ok? ==> r.value.out == s.out && r.value.folder == s.folder && r.value.fetched == s.fetched
    ensures r.Err? <==> s.folder !in s.fs || exists k :: 0 <= k < 5 && s.out[k].ToResourceFile(s.fs).Err?
    ensures r.Err? ==> r.error == OtherError
  {
    var entries :- ResourceFilesFrom(s.out, s.fs, 0);
    var path := PathIn(s.folder, env.Stem(), env.idFilename(s.record.id), "");
    if s.folder !in s.fs then Err(OtherError)
    else
      var record := SyncRecord(s.record.id, env.songId, path, s.record.pinned, entries);
      Ok(s.(record := record, fs := WriteFile(s.fs, path, env.now)))
  }

  // ---------------------------------------------------------------------------
  // The whole run

  /** How the scraper's errors surface in the run. */
  function FromUsdbError(e: UsdbScraper.UsdbError): (r: LoaderError)
    ensures r == LoginError <==> e == UsdbScraper.LoginRequired
    ensures r == NotFoundError <==> e == UsdbScraper.NotFound
  {
    match e
    case LoginRequired => LoginError
    case NotFound => NotFoundError
    case _ => OtherError
  }

  /** The stages between the downloads and the temp directory's removal. */
  function Commit(s: RunState, env: Env): (r: Result<RunState, LoaderError>)
    requires TempReady(s, env)
    ensures r.Ok? ==> IsNameMaybeWithSuffix(DirName(r.value.folder), env.Stem()) && r.value.record == s.record
    ensures r.Err? ==> r.error == OtherError
  {
    var s1 :- CleanupFrom(s, env, 0);
    var s2 :- EnsureFolder(s1, env);
    var s3 := WriteTxt(s2, env);
    var s4 :- PersistFrom(s3, env, 0);
    Ok(DropTemp(s4, env))
  }

  /** `SongLoader._run_inner`: the state after a run, or the error that ended it. */
  function RunInner(fs0: FS, prior: Option<SyncRecord>, env: Env): (r: Result<RunState, LoaderError>)
    requires env.tempdir !in fs0
    requires prior.Some? ==> prior.value.path.dir != env.tempdir
    ensures env.details.Err? ==> r == Err(FromUsdbError(env.details.error))
    ensures r.Ok? ==> IsNameMaybeWithSuffix(DirName(r.value.folder), env.Stem())
    ensures r.Ok? && prior.Some? ==> r.value.record.id == prior.value.id && r.value.record.pinned == prior.value.pinned
    ensures r.Ok? && prior.None? ==> r.value.record.id == env.freshId && !r.value.record.pinned
  {
    match env.details
    case Err(e) => Err(FromUsdbError(e))
    case Ok(details) =>
      var s0 := InitialState(fs0, prior, env);
      var s1 := Downloads(s0, env, details);
      var s2 := TagStage(s1, env);
      var s3 :- Commit(s2, env);
      WriteSyncMeta(s3, env)
  }

  /**
   * A kept file in a folder that gets renamed makes the run fail: its slot still points
   * into the old folder, which no longer exists when the record reads the file's mtime.
   */
  lemma StaleOldPathFails(s: RunState, env: Env, k: nat)
    requires TempReady(s, env) && k < 5
    requires s.out[k].oldPath.Some? && s.out[k].oldPath.value.dir == s.folder
    requires s.out[k].newPath.None? && s.out[k].resource.Some? && s.out[k].resource.value != ""
    requires k != Txt || !env.options.txt
    requires EnsureFolder(s, env).Ok? && EnsureFolder(s, env).value.folder != s.folder
    ensures var s2 := EnsureFolder(s, env).value;
      var s3 := WriteTxt(s2, env);
      PersistFrom(s3, env, 0).Ok? ==> WriteSyncMeta(DropTemp(PersistFrom(s3, env, 0).value, env), env).Err?
  {
    EnsureFolderMoves(s, env);
    var s2 := EnsureFolder(s, env).value;
    assert s.folder !in s2.fs && s2.out[k] == s.out[k];
    var s3 := WriteTxt(s2, env);
    assert s.folder !in s3.fs && s3.out[k] == s.out[k];
    var r4 := PersistFrom(s3, env, 0);
    if r4.Ok? {
      var s4 := r4.value;
      assert s.folder !in s4.fs && s4.out[k] == s.out[k];
      var s5 := DropTemp(s4, env);
      assert s.folder !in s5.fs && s5.out[k] == s.out[k];
      assert !FileExists(s5.fs, s.out[k].oldPath.value);
      MissingFileFailsRecord(s5, env, k);
    }
  }

  /** A slot whose file is gone makes writing the record fail. */
  lemma MissingFileFailsRecord(s: RunState, env: Env, k: nat)
    requires k < 5 && s.out[k].PathAndResource().Some?
    requires !FileExists(s.fs, s.out[k].PathAndResource().value.0)
    ensures WriteSyncMeta(s, env).Err?
  {
    assert s.out[k].ToResourceFile(s.fs).Err?;
    assert ResourceFilesFrom(s.out, s.fs, 0).Err?;
  }

  // ---------------------------------------------------------------------------
  // The runnable

  /** What the download announces. */
  datatype Event = SongChanged(songId: int) | SongDeleted(songId: int) | DownloadFinished(songId: int)

  /** A song as the database stores it after a download: the USDB data, the status and
      the sync record. */
  datatype StoredSong = StoredSong(song: UsdbSong.UsdbSong, status: SongData.DownloadStatus,
                                   record: Option<SyncRecord>)

  /** `_update_song_with_usdb_data`: artist, title, golden notes, rating and views come
      from USDB's details, language and edition from the txt (empty when it has none). */
  function UpdatedSong(song: UsdbSong.UsdbSong, details: UsdbScraper.SongDetails,
                       language: Option<string>, edition: Option<string>): (r: UsdbSong.UsdbSong)
    ensures r.songId == song.songId
    ensures r.artist == details.artist && r.title == details.title
    ensures r.goldenNotes == details.goldenNotes && r.rating == details.rating && r.views == details.views
    ensures language.Some? ==> r.language == language.value
    ensures language.None? ==> r.language == ""
    ensures edition.Some? ==> r.edition == edition.value
    ensures edition.None? ==> r.edition == ""
  {
    song.(artist := details.artist, title := details.title,
          language := if language.Some? then language.value else "",
          edition := if edition.Some? then edition.value else "",
          goldenNotes := details.goldenNotes, rating := details.rating, views := details.views)
  }

  /** The event `run` posts once `_run_inner` is over: a song gone from USDB is announced
      as deleted, every other outcome as changed. */
  function ChangeEvent(songId: int, inner: Result<RunState, LoaderError>): (r: Event)
    ensures r.songId == songId
    ensures r.SongDeleted? <==> inner == Err(NotFoundError)
  {
    if inner == Err(NotFoundError) then SongDeleted(songId) else SongChanged(songId)
  }
}
