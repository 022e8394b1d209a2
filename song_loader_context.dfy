/**
 * The download pipeline of song_loader.py as it runs: a `Context` whose fields the
 * stages update in place, and the runnable that drives one download and reports its
 * outcome. Every stage is proved to leave the context in the state the matching
 * function of module SongLoader describes.
 */
module SongLoaderContext {
  import opened Wrappers
  import opened FileSystem
  import opened Utils
  import opened SyncMeta
  import opened SongLoader
  import UsdbScraper
  import UsdbSong
  import SongData

  /** `Context`: the song folder, the staged files, the txt headers and the sync record of
      one download, together with the file system it works on. */
  class Context {
    var fs: FS
    var folder: Dir
    var out: Slots
    /** Every resource handed to a fetcher so far. */
    var fetched: seq<string>
    var headers: Headers
    var record: SyncRecord
    const env: Env
    const details: UsdbScraper.SongDetails

    function State(): RunState
      reads this
    {
      RunState(fs, folder, out, fetched, headers, record)
    }

    /** `Context.new` inside the temporary directory, with `__attrs_post_init__`: the folder
        is chosen, a missing record is created and the prior files that are in sync are
        taken over. */
    constructor (fs0: FS, prior: Option<SyncRecord>, env: Env, details: UsdbScraper.SongDetails)
      requires env.tempdir !in fs0
      requires prior.Some? ==> prior.value.path.dir != env.tempdir
      ensures State() == InitialState(fs0, prior, env)
      ensures this.env == env && this.details == details
    {
      this.env := env;
      this.details := details;
      var fs1 := MakeDir(fs0, env.tempdir);
      var folder1 := NewFolder(prior, env.songDir, env.Stem(), ExistingPaths(fs1));
      var record1 := if prior.Some? then prior.value else NewRecord(env, folder1);
      var slots := ReuseInSync(record1, fs1, folder1, env.Stem());
      fs, folder, out, fetched, headers, record := fs1, folder1, slots, [], env.txtHeaders, record1;
    }

    /** The candidate loop shared by `_maybe_download_audio` and `_maybe_download_video`. */
    method DownloadFirstCandidate(k: nat, enabled: bool, cands: seq<string>, dl: string -> Option<string>)
      requires k < 5 && TempReady(State(), env)
      modifies this
      ensures State() == AvStage(old(State()), env, k, enabled, cands, dl)
    {
      if !enabled {
        return;
      }
      ghost var s0 := State();
      ghost var current := s0.out[k].resource;
      var ten := FirstTen(cands);
      var i := 0;
      while i < |ten|
        invariant 0 <= i <= |ten|
        invariant FirstFetch(current, ten, dl, i) == FirstFetch(current, ten, dl, 0)
        invariant State() == s0.(fetched := s0.fetched + ten[..i])
      {
        var stop := TryCandidate(k, ten[i], dl);
        if stop {
          if current == Some(ten[i]) {
            AvStageUnchangedAt(s0, env, k, cands, dl, i);
          } else {
            AvStageFetchedAt(s0, env, k, cands, dl, i);
          }
          return;
        }
        TakeOneMore(s0.fetched, ten, i);
        FirstFetchSkips(current, ten, dl, i);
        i := i + 1;
      }
      assert ten[..i] == ten;
      AvStageAllFailed(s0, env, k, cands, dl);
    }

    /** One pass of the candidate loop: stop at the current resource, else hand the
        candidate to the fetcher and stop when it yields a file. */
    method TryCandidate(k: nat, resource: string, dl: string -> Option<string>) returns (stop: bool)
      requires k < 5 && TempReady(State(), env)
      modifies this
      ensures old(out[k].resource) == Some(resource) ==> stop && State() == old(State())
      ensures old(out[k].resource) != Some(resource) ==> (stop <==> Succeeds(dl(resource)))
      ensures old(out[k].resource) != Some(resource) && !stop ==>
        State() == old(State()).(fetched := old(fetched) + [resource])
      ensures old(out[k].resource) != Some(resource) && stop ==>
        var p := PathIn(env.tempdir, env.Stem(), "", dl(resource).value);
        State() == old(State()).(fs := WriteFile(old(fs), p, env.now),
                                 out := old(out)[k := old(out[k]).(resource := Some(resource), newPath := Some(p))],
                                 fetched := old(fetched) + [resource])
    {
      if out[k].resource == Some(resource) {
        return true;
      }
      fetched := fetched + [resource];
      var ext := dl(resource);
      if ext.Some? && ext.value != "" {
        var p := PathIn(env.tempdir, env.Stem(), "", ext.value);
        fs := WriteFile(fs, p, env.now);
        out := out[k := out[k].(resource := Some(resource), newPath := Some(p))];
        return true;
      }
      return false;
    }

    /** `_maybe_download_audio`. */
    method MaybeDownloadAudio()
      requires TempReady(State(), env)
      modifies this
      ensures State() == AudioStage(old(State()), env, details)
    {
      DownloadFirstCandidate(Audio, env.options.audio, AudioCandidates(env.tags, details), env.audioDl);
    }

    /** `_maybe_download_video`. */
    method MaybeDownloadVideo()
      requires TempReady(State(), env)
      modifies this
      ensures State() == VideoStage(old(State()), env, details)
    {
      DownloadFirstCandidate(Video, env.options.video && !env.tags.audioOnly, VideoCandidates(env.tags, details),
                             env.videoDl);
    }

    /** The body shared by `_maybe_download_cover` and `_maybe_download_background`. */
    method DownloadImage(k: nat, enabled: bool, url: Option<string>, dl: string -> Option<string>)
      requires k < 5 && TempReady(State(), env)
      modifies this
      ensures State() == ImageStage(old(State()), env, k, enabled, url, dl)
    {
      if !enabled || !Truthy(url) || out[k].resource == url {
        return;
      }
      fetched := fetched + [url.value];
      var name := dl(url.value);
      if name.Some? {
        var p := FilePath(env.tempdir, name.value);
        fs := WriteFile(fs, p, env.now);
        out := out[k := out[k].(resource := url, newPath := Some(p))];
      }
    }

    /** `_maybe_download_cover`. */
    method MaybeDownloadCover()
      requires TempReady(State(), env)
      modifies this
      ensures State() == CoverStage(old(State()), env, details)
    {
      DownloadImage(Cover, env.options.cover, CoverUrl(env.tags, details), env.coverDl);
    }

    /** `_maybe_download_background`. */
    method MaybeDownloadBackground()
      requires TempReady(State(), env)
      modifies this
      ensures State() == BackgroundStage(old(State()), env)
    {
      DownloadImage(Background, env.options.background && env.options.backgroundAllowed, env.tags.background,
                    env.backgroundDl);
    }

    /** `_maybe_write_audio_tags`. */
    method MaybeWriteAudioTags()
      modifies this
      ensures State() == TagStage(old(State()), env)
    {
      if !env.options.audio {
        return;
      }
      var pathResource := out[Audio].PathAndResource();
      if pathResource.None? {
        return;
      }
      var (path, resource) := pathResource.value;
      if resource in {".m4a", ".mp3", ".ogg"} && FileExists(fs, path) {
        fs := WriteFile(fs, path, env.now);
      }
    }

    /** `_cleanup_exisiting_resource`: the prior entries in order; a rename that fails ends
        the run. */
    method CleanupExistingResource() returns (ok: bool)
      modifies this
      ensures ok <==> CleanupFrom(old(State()), env, 0).Ok?
      ensures ok ==> State() == CleanupFrom(old(State()), env, 0).value
    {
      var k := 0;
      while k < 5
        invariant 0 <= k <= 5
        invariant CleanupFrom(old(State()), env, 0) == CleanupFrom(State(), env, k)
      {
        var done := CleanupOne(k);
        if !done {
          return false;
        }
        k := k + 1;
      }
      return true;
    }

    /** One pass of the cleanup loop, for the entry at `k`. */
    method CleanupOne(k: nat) returns (ok: bool)
      requires k < 5
      modifies this
      ensures ok <==> CleanupEntry(old(State()), env, k).Ok?
      ensures ok ==> State() == CleanupEntry(old(State()), env, k).value
    {
      var prev := record.entries[k];
      var slot := out[k];
      if prev.None? {
      } else if slot.oldPath.None? {
        fs := Trash(fs, PathIn(folder, env.Stem(), prev.value.fname, ""));
      } else if slot.newPath.Some? {
        fs := Trash(fs, slot.oldPath.value);
      } else {
        var target := PathIn(folder, env.Stem(), "", ResourceFileEnding(prev.value.fname));
        if slot.oldPath.value != target {
          var renamed := Rename(fs, slot.oldPath.value, target);
          if renamed.Err? {
            return false;
          }
          fs := renamed.value;
          out := out[k := slot.(oldPath := Some(target))];
        }
      }
      return true;
    }

    /** `_ensure_correct_folder_name`. */
    method EnsureCorrectFolderName() returns (ok: bool)
      requires TempReady(State(), env)
      modifies this
      ensures ok <==> EnsureFolder(old(State()), env).Ok?
      ensures ok ==> State() == EnsureFolder(old(State()), env).value
    {
      ghost var s0 := State();
      fs := MakeDir(fs, folder);
      if IsNameMaybeWithSuffix(DirName(folder), env.Stem()) {
        assert State() == s0.(fs := MakeDir(s0.fs, s0.folder));
        return true;
      }
      if |folder| == 0 || env.Stem() == "" {
        return false;
      }
      var target := MoveToUniqueSibling();
      EnsureFolderRenames(s0, env, target);
      return true;
    }

    /** The renaming half of `_ensure_correct_folder_name`: the folder moves to the first
        free sibling named after the stem. */
    method MoveToUniqueSibling() returns (target: Dir)
      requires |folder| > 0 && env.Stem() != "" && folder in fs
      modifies this
      ensures target == NextUnique(WithName(old(folder), env.Stem()), ExistingPaths(old(fs)))
      ensures target !in old(fs)
      ensures State() == old(State()).(fs := RenameDir(old(fs), old(folder), target), folder := target)
    {
      target := NextUniqueDirectory(WithName(folder, env.Stem()), ExistingPaths(fs));
      fs := RenameDir(fs, folder, target);
      folder := target;
    }

    /** `_maybe_write_txt`. */
    method MaybeWriteTxt()
      requires TempReady(State(), env)
      modifies this
      ensures State() == WriteTxt(old(State()), env)
    {
      if !env.options.txt {
        return;
      }
      WriteHeadersInPlace();
      var p := PathIn(env.tempdir, env.Stem(), "", "txt");
      out := out[Txt := out[Txt].(newPath := Some(p))];
      fs := WriteFile(fs, p, env.now);
      out := out[Txt := out[Txt].(resource := Some(env.usdbUrl))];
    }

    /** `_write_headers`: each media header is set to the name of its slot's file. */
    method WriteHeadersInPlace()
      modifies this
      ensures State() == old(State()).(headers := WriteHeaders(old(out), old(headers)))
    {
      if out[Audio].Path().Some? {
        headers := headers.(mp3 := Some(out[Audio].Path().value.name));
      }
      if out[Video].Path().Some? {
        headers := headers.(video := Some(out[Video].Path().value.name));
      }
      if out[Cover].Path().Some? {
        headers := headers.(cover := Some(out[Cover].Path().value.name));
      }
      if out[Background].Path().Some? {
        headers := headers.(background := Some(out[Background].Path().value.name));
      }
    }

    /** The stages of `_run_inner` from the cleanup to the removal of the temp directory;
        the first one that raises ends them. */
    method CommitStages() returns (ok: bool)
      requires TempReady(State(), env)
      modifies this
      ensures ok <==> Commit(old(State()), env).Ok?
      ensures ok ==> State() == Commit(old(State()), env).value
    {
      ok := CleanupExistingResource();
      if !ok {
        return;
      }
      ok := EnsureCorrectFolderName();
      if !ok {
        return;
      }
      MaybeWriteTxt();
      ok := PersistTempfiles();
      if !ok {
        return;
      }
      RemoveTempdir();
    }

    /** `_persist_tempfiles`: every new file moves into the song folder. */
    method PersistTempfiles() returns (ok: bool)
      modifies this
      ensures ok <==> PersistFrom(old(State()), env, 0).Ok?
      ensures ok ==> State() == PersistFrom(old(State()), env, 0).value
    {
      var k := 0;
      while k < 5
        invariant 0 <= k <= 5
        invariant PersistFrom(old(State()), env, 0) == PersistFrom(State(), env, k)
      {
        var moved := PersistOne(k);
        if !moved {
          return false;
        }
        k := k + 1;
      }
      return true;
    }

    /** One pass of the loop of `_persist_tempfiles`: the slot's new file, if any, moves
        into the song folder after whatever lay at its target is trashed. */
    method PersistOne(k: nat) returns (ok: bool)
      requires k < 5
      modifies this
      ensures ok <==> PersistSlot(old(State()), env, k).Ok?
      ensures ok ==> State() == PersistSlot(old(State()), env, k).value
    {
      var slot := out[k];
      if slot.newPath.Some? {
        var target := PathIn(folder, env.Stem(), slot.newPath.value.name, "");
        fs := Trash(fs, target);
        var renamed := Rename(fs, slot.newPath.value, target);
        if renamed.Err? {
          return false;
        }
        fs := renamed.value;
        out := out[k := slot.(newPath := Some(target))];
      }
      return true;
    }

    /** The end of the `TemporaryDirectory` block. */
    method RemoveTempdir()
      modifies this
      ensures State() == DropTemp(old(State()), env)
    {
      fs := fs - {env.tempdir};
    }

    /** `_write_sync_meta`. */
    method WriteSyncMetaFile() returns (ok: bool)
      modifies this
      ensures ok <==> WriteSyncMeta(old(State()), env).Ok?
      ensures ok ==> State() == WriteSyncMeta(old(State()), env).value
    {
      var path := PathIn(folder, env.Stem(), env.idFilename(record.id), "");
      var entries := ResourceFilesFrom(out, fs, 0);
      if entries.Err? || folder !in fs {
        return false;
      }
      record := SyncRecord(record.id, env.songId, path, record.pinned, entries.value);
      fs := WriteFile(fs, path, env.now);
      return true;
    }
  }

  /** The loop of `Context.__attrs_post_init__`: the audio, video, cover and background
      slots take over the prior entries that are in sync with the folder. */
  method ReuseInSync(record: SyncRecord, fs: FS, folder: Dir, stem: string) returns (slots: Slots)
    ensures slots == SeedSlots(record, fs, folder, stem)
  {
    slots := [EmptySlot, EmptySlot, EmptySlot, EmptySlot, EmptySlot];
    var k := Audio;
    while k <= Background
      invariant Audio <= k <= Background + 1
      invariant slots[Txt] == EmptySlot
      invariant forall j :: Audio <= j < k ==> slots[j] == Seeded(record.entries[j], fs, folder, stem)
      invariant forall j :: k <= j < 5 ==> slots[j] == EmptySlot
    {
      var prev := record.entries[k];
      if prev.Some? && IsInSync(prev.value, fs, folder) {
        slots := slots[k := slots[k].(resource := Some(prev.value.resource),
                                      oldPath := Some(PathIn(folder, stem, prev.value.fname, "")))];
      }
      assert slots[k] == Seeded(prev, fs, folder, stem);
      k := k + 1;
    }
    ghost var seeded := SeedSlots(record, fs, folder, stem);
    assert forall j :: 0 <= j < 5 ==> slots[j] == seeded[j];
  }

  /** `SongLoader._run_inner`: the stages in order on a fresh context; the first one that
      fails ends the run. */
  method RunPipeline(fs0: FS, prior: Option<SyncRecord>, env: Env) returns (r: Result<RunState, LoaderError>)
    requires env.tempdir !in fs0
    requires prior.Some? ==> prior.value.path.dir != env.tempdir
    ensures r == SongLoader.RunInner(fs0, prior, env)
  {
    if env.details.Err? {
      return Err(FromUsdbError(env.details.error));
    }
    var ctx := new Context(fs0, prior, env, env.details.value);
    ghost var s0 := ctx.State();
    ctx.MaybeDownloadAudio();
    ctx.MaybeDownloadVideo();
    ctx.MaybeDownloadCover();
    ctx.MaybeDownloadBackground();
    ctx.MaybeWriteAudioTags();
    ghost var s2 := ctx.State();
    assert s2 == TagStage(Downloads(s0, env, env.details.value), env);
    ghost var commit := Commit(s2, env);
    var ok := ctx.CommitStages();
    if !ok {
      assert commit.Err?;
      return Err(OtherError);
    }
    assert ctx.State() == commit.value;
    ok := ctx.WriteSyncMetaFile();
    if !ok {
      return Err(OtherError);
    }
    return Ok(ctx.State());
  }

  /** `SongLoader` (the runnable): the song it downloads with its prior sync record and
      status, the database of songs and the events posted so far. */
  class Loader {
    var song: UsdbSong.UsdbSong
    var syncMeta: Option<SyncRecord>
    var status: SongData.DownloadStatus
    var db: map<int, StoredSong>
    var events: seq<Event>

    constructor (song: UsdbSong.UsdbSong, syncMeta: Option<SyncRecord>, status: SongData.DownloadStatus,
                 db: map<int, StoredSong>)
      ensures this.song == song && this.syncMeta == syncMeta && this.status == status && this.db == db
      ensures events == []
    {
      this.song := song;
      this.syncMeta := syncMeta;
      this.status := status;
      this.db := db;
      events := [];
    }

    /** `SongLoader.run`: the song is marked as downloading and announced, then the
        pipeline runs and its outcome is recorded. */
    method Run(fs0: FS, env: Env) returns (fs: FS)
      requires env.songId == song.songId
      requires env.tempdir !in fs0
      requires syncMeta.Some? ==> syncMeta.value.path.dir != env.tempdir
      modifies this
      ensures var inner := SongLoader.RunInner(fs0, old(syncMeta), env);
        events == old(events) + [SongChanged(env.songId), ChangeEvent(env.songId, inner), DownloadFinished(env.songId)]
      ensures song == old(song) && syncMeta == old(syncMeta)
      ensures var inner := SongLoader.RunInner(fs0, old(syncMeta), env);
        inner.Ok? ==> (status == SongData.Downloading && fs == inner.value.fs
          && db == old(db)[env.songId := StoredSong(
               UpdatedSong(old(song), env.details.value, env.txtLanguage, env.txtEdition),
               SongData.NoStatus, Some(inner.value.record))])
      ensures var inner := SongLoader.RunInner(fs0, old(syncMeta), env);
        inner == Err(NotFoundError) ==> status == SongData.Downloading && db == old(db) - {env.songId}
      ensures var inner := SongLoader.RunInner(fs0, old(syncMeta), env);
        inner.Err? && inner != Err(NotFoundError) ==> status == SongData.Failed && db == old(db)
      ensures SongLoader.RunInner(fs0, old(syncMeta), env).Err? ==> fs == fs0
    {
      status := SongData.Downloading;
      events := events + [SongChanged(env.songId)];
      var inner := RunPipeline(fs0, syncMeta, env);
      assert inner == SongLoader.RunInner(fs0, old(syncMeta), env) && db == old(db) && song == old(song);
      fs := Finish(fs0, env, inner);
    }

    /** The rest of `SongLoader.run`: a finished run stores the updated song with no status
        and its new record; a song gone from USDB is deleted; any other failure marks the
        song as failed. Every outcome is announced, then the end of the download. */
    method Finish(fs0: FS, env: Env, inner: Result<RunState, LoaderError>) returns (fs: FS)
      requires inner.Ok? ==> env.details.Ok?
      modifies this
      ensures events == old(events) + [ChangeEvent(env.songId, inner), DownloadFinished(env.songId)]
      ensures song == old(song) && syncMeta == old(syncMeta)
      ensures inner.Ok? ==> (status == old(status) && fs == inner.value.fs
        && db == old(db)[env.songId := StoredSong(
             UpdatedSong(old(song), env.details.value, env.txtLanguage, env.txtEdition),
             SongData.NoStatus, Some(inner.value.record))])
      ensures inner == Err(NotFoundError) ==> status == old(status) && db == old(db) - {env.songId}
      ensures inner.Err? && inner != Err(NotFoundError) ==> status == SongData.Failed && db == old(db)
      ensures inner.Err? ==> fs == fs0
    {
      var change := SongChanged(env.songId);
      fs := fs0;
      match inner {
        case Err(LoginError) =>
          status := SongData.Failed;
        case Err(NotFoundError) =>
          db := db - {env.songId};
          change := SongDeleted(env.songId);
        case Err(OtherError) =>
          status := SongData.Failed;
        case Ok(state) =>
          var updated := UpdatedSong(song, env.details.value, env.txtLanguage, env.txtEdition);
          db := db[env.songId := StoredSong(updated, SongData.NoStatus, Some(state.record))];
          fs := state.fs;
      }
      events := events + [change, DownloadFinished(env.songId)];
    }
  }
}
