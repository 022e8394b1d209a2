/**
 * The song table's controller (gui/song_table/song_table.py): the progress counters and
 * the status changes the menus, double-clicks and download events make to the rows.
 */
module SongTable {
  import opened Wrappers
  import opened SongData
  import TableModel

  // ---------------------------------------------------------------------------
  // Progress counters

  /** The two counters behind the progress label `finished/running`. */
  datatype Counters = Counters(running: int, finished: int)

  /** `Progress.start`: when every started download has finished, a new batch starts
      from zero; otherwise the new downloads join the batch that is still running. */
  function Started(c: Counters, count: int): (r: Counters)
    ensures c.running == c.finished ==> r == Counters(count, 0)
    ensures c.running != c.finished ==> r == Counters(c.running + count, c.finished)
  {
    var base := if c.running == c.finished then Counters(0, 0) else c;
    Counters(base.running + count, base.finished)
  }

  /** `Progress.finish`. */
  function Finished(c: Counters, count: int): (r: Counters)
    ensures r.running == c.running && r.finished == c.finished + count
  {
    Counters(c.running, c.finished + count)
  }

  predicate InRange(c: Counters) {
    0 <= c.finished <= c.running
  }

  /** Starting a non-negative number of downloads and finishing one that is still running
      both keep `0 <= finished <= running`. */
  lemma CountersStayInRange(c: Counters, count: nat)
    requires InRange(c)
    ensures InRange(Started(c, count))
    ensures c.finished < c.running ==> InRange(Finished(c, 1))
  {
  }

  /** Finishing the `n` downloads of a batch one at a time. */
  function FinishEach(c: Counters, n: nat): Counters
    decreases n
  {
    if n == 0 then c else FinishEach(Finished(c, 1), n - 1)
  }

  /** A batch of `n` started from an idle bar and finished one download at a time ends
      with the label `n/n`, so the next batch starts again from zero. */
  lemma {:induction false} BatchCompletes(c: Counters, n: nat, m: nat)
    requires c.running == c.finished
    ensures FinishEach(Started(c, n), m) == Counters(n, m)
    ensures Started(FinishEach(Started(c, n), n), m) == Counters(m, 0)
  {
    FinishEachAdds(Counters(n, 0), m);
    FinishEachAdds(Counters(n, 0), n);
  }

  lemma {:induction false} FinishEachAdds(c: Counters, n: nat)
    ensures FinishEach(c, n) == Counters(c.running, c.finished + n)
    decreases n
  {
    if n > 0 {
      FinishEachAdds(Finished(c, 1), n - 1);
    }
  }

  /** `Progress`: the progress bar controller. */
  class Progress {
    var running: int
    var finished: int

    function Counts(): Counters
      reads this
    {
      Counters(running, finished)
    }

    constructor ()
      ensures Counts() == Counters(0, 0)
    {
      running := 0;
      finished := 0;
    }

    method Start(count: int)
      modifies this
      ensures Counts() == Started(old(Counts()), count)
    {
      if running == finished {
        running := 0;
        finished := 0;
      }
      running := running + count;
    }

    method Finish(count: int)
      modifies this
      ensures Counts() == Finished(old(Counts()), count)
    {
      finished := finished + count;
    }
  }

  // ---------------------------------------------------------------------------
  // Status transitions

  /** What a menu action does to the selected rows: download, stage or unstage. */
  datatype Action = Download | Stage | Unstage

  /** The new status of a row the action applies to, or None when the action leaves the
      row alone: `_download` queues what `can_be_downloaded` as PENDING, `_stage_rows`
      stages NONE, `unstage_selection` and `clear_batch` reset what `can_be_unstaged`. */
  function Transition(a: Action, s: DownloadStatus): (r: Option<DownloadStatus>)
    ensures a == Download ==> (r.Some? <==> CanBeDownloaded(s)) && (r.Some? ==> r.value == Pending)
    ensures a == Stage ==> (r.Some? <==> s == NoStatus) && (r.Some? ==> r.value == Staged)
    ensures a == Unstage ==> (r.Some? <==> CanBeUnstaged(s)) && (r.Some? ==> r.value == NoStatus)
  {
    match a
    case Download => if CanBeDownloaded(s) then Some(Pending) else None
    case Stage => if s == NoStatus then Some(Staged) else None
    case Unstage => if CanBeUnstaged(s) then Some(NoStatus) else None
  }

  /** An action never applies twice in a row: what it produces is not eligible for it. */
  lemma TransitionSettles(a: Action, s: DownloadStatus)
    ensures Transition(a, s).Some? ==> Transition(a, Transition(a, s).value).None?
  {
  }

  /** One row after the action. */
  function Step(a: Action, d: SongData): (r: SongData)
    ensures r.data == d.data && r.fuzzyText == d.fuzzyText && r.localFiles == d.localFiles
  {
    match Transition(a, d.status)
    case None => d
    case Some(t) => d.(status := t)
  }

  lemma StepSettles(a: Action, d: SongData)
    ensures Step(a, Step(a, d)) == Step(a, d)
    ensures Transition(a, d.status).None? ==> Step(a, d) == d
  {
    TransitionSettles(a, d.status);
  }

  /** The table and the list of songs the action changed, in the order it changed them. */
  datatype Processed = Processed(songs: seq<SongData>, picked: seq<SongData>)

  predicate RowsIn(rows: seq<nat>, songs: seq<SongData>) {
    forall k :: 0 <= k < |rows| ==> rows[k] < |songs|
  }

  /** `_process_rows`: the action applied to the given rows, one after the other. */
  function Process(songs: seq<SongData>, rows: seq<nat>, a: Action): (r: Processed)
    requires RowsIn(rows, songs)
    ensures |r.songs| == |songs|
    ensures TableModel.Ids(r.songs) == TableModel.Ids(songs)
  {
    if rows == [] then Processed(songs, [])
    else
      var prev := Process(songs, rows[..|rows| - 1], a);
      var row := rows[|rows| - 1];
      var d := prev.songs[row];
      match Transition(a, d.status)
      case None => prev
      case Some(t) =>
        var r := Processed(prev.songs[row := d.(status := t)], prev.picked + [d.(status := t)]);
        assert TableModel.Ids(r.songs) == TableModel.Ids(prev.songs);
        r
  }

  /** Every row named at least once has been through the action exactly as if named once,
      and every other row is as it was: a repeated row is harmless. */
  lemma {:induction false} ProcessedRows(songs: seq<SongData>, rows: seq<nat>, a: Action, i: nat)
    requires RowsIn(rows, songs) && i < |songs|
    ensures Process(songs, rows, a).songs[i] == (if i in rows then Step(a, songs[i]) else songs[i])
  {
    if rows != [] {
      var init := rows[..|rows| - 1];
      ProcessedRows(songs, init, a, i);
      var row := rows[|rows| - 1];
      assert rows == init + [row];
      StepSettles(a, songs[i]);
    }
  }

  /** The songs handed on are the rows the action applied to, each in its new status. */
  lemma {:induction false} ProcessedPicked(songs: seq<SongData>, rows: seq<nat>, a: Action)
    requires RowsIn(rows, songs)
    ensures |Process(songs, rows, a).picked| <= |rows|
    ensures forall d :: d in Process(songs, rows, a).picked ==> (
      exists k :: 0 <= k < |rows| && Transition(a, songs[rows[k]].status).Some? && d == Step(a, songs[rows[k]]))
  {
    if rows != [] {
      var init := rows[..|rows| - 1];
      var row := rows[|rows| - 1];
      ProcessedPicked(songs, init, a);
      var prev := Process(songs, init, a);
      assert forall k :: 0 <= k < |init| ==> rows[k] == init[k];
      if Transition(a, prev.songs[row].status).Some? {
        ProcessedRows(songs, init, a, row);
        StepSettles(a, songs[row]);
        TransitionSettles(a, songs[row].status);
        // The row has not changed before, so it is the original row.
        assert prev.songs[row] == songs[row];
        assert Process(songs, rows, a).picked == prev.picked + [Step(a, songs[row])];
      }
    }
  }

  /** Some song is handed on exactly when some named row was eligible. */
  lemma {:induction false} ProcessedPickedSome(songs: seq<SongData>, rows: seq<nat>, a: Action)
    requires RowsIn(rows, songs)
    ensures |Process(songs, rows, a).picked| > 0 <==> (
      exists k :: 0 <= k < |rows| && Transition(a, songs[rows[k]].status).Some?)
  {
    if rows != [] {
      var init := rows[..|rows| - 1];
      var row := rows[|rows| - 1];
      ProcessedPickedSome(songs, init, a);
      ProcessedRows(songs, init, a, row);
      StepSettles(a, songs[row]);
      TransitionSettles(a, songs[row].status);
      var prev := Process(songs, init, a);
      assert forall k :: 0 <= k < |init| ==> rows[k] == init[k];
      if Transition(a, prev.songs[row].status).Some? {
        assert prev.songs[row] == songs[row];
        assert Transition(a, songs[rows[|rows| - 1]].status).Some?;
      } else if |prev.picked| == 0 && Transition(a, songs[row].status).Some? {
        // No earlier row was eligible, so this one is unchanged and still eligible.
        assert false;
      }
    }
  }

  /** The songs `_process_rows` should hand on, read off the original table: for each
      row in order, the first time it is named and the action applies to it, the song in
      its new status. */
  function Picks(songs: seq<SongData>, rows: seq<nat>, a: Action): (r: seq<SongData>)
    requires RowsIn(rows, songs)
    ensures |r| <= |rows|
  {
    if rows == [] then []
    else
      var init := rows[..|rows| - 1];
      var row := rows[|rows| - 1];
      Picks(songs, init, a)
        + (if row !in init && Transition(a, songs[row].status).Some? then [Step(a, songs[row])] else [])
  }

  /** The fold hands on exactly `Picks`: every eligible row once, in row order. */
  lemma {:induction false} ProcessedPicks(songs: seq<SongData>, rows: seq<nat>, a: Action)
    requires RowsIn(rows, songs)
    ensures Process(songs, rows, a).picked == Picks(songs, rows, a)
  {
    if rows != [] {
      var init := rows[..|rows| - 1];
      var row := rows[|rows| - 1];
      ProcessedPicks(songs, init, a);
      ProcessedRows(songs, init, a, row);
      StepSettles(a, songs[row]);
      TransitionSettles(a, songs[row].status);
    }
  }

  /** No eligible row is missed: each one's new song is among the picks. */
  lemma {:induction false} PicksComplete(songs: seq<SongData>, rows: seq<nat>, a: Action, k: nat)
    requires RowsIn(rows, songs) && k < |rows|
    requires Transition(a, songs[rows[k]].status).Some?
    ensures Step(a, songs[rows[k]]) in Picks(songs, rows, a)
  {
    var init := rows[..|rows| - 1];
    var row := rows[|rows| - 1];
    if k < |rows| - 1 {
      assert init[k] == rows[k];
      PicksComplete(songs, init, a, k);
    } else if row in init {
      var j :| 0 <= j < |init| && init[j] == row;
      PicksComplete(songs, init, a, j);
    }
  }

  /** Naming a row again changes nothing: a repeated row is handed on once. */
  lemma {:induction false} PicksIgnoreRepeat(songs: seq<SongData>, rows: seq<nat>, a: Action, k: nat)
    requires RowsIn(rows, songs) && k < |rows|
    ensures Picks(songs, rows + [rows[k]], a) == Picks(songs, rows, a)
  {
    var ext := rows + [rows[k]];
    assert ext[..|ext| - 1] == rows;
    assert rows[k] in rows;
  }

  /** Distinct rows that all qualify are handed on one each, in the order they were named. */
  lemma {:induction false} PicksInRowOrder(songs: seq<SongData>, rows: seq<nat>, a: Action)
    requires RowsIn(rows, songs)
    requires forall i, j :: 0 <= i < j < |rows| ==> rows[i] != rows[j]
    requires forall k :: 0 <= k < |rows| ==> Transition(a, songs[rows[k]].status).Some?
    ensures |Picks(songs, rows, a)| == |rows|
    ensures forall k :: 0 <= k < |rows| ==> Picks(songs, rows, a)[k] == Step(a, songs[rows[k]])
  {
    if rows != [] {
      var init := rows[..|rows| - 1];
      var row := rows[|rows| - 1];
      PicksInRowOrder(songs, init, a);
      assert row !in init by {
        forall j | 0 <= j < |init| ensures init[j] != row {
          assert init[j] == rows[j];
        }
      }
    }
  }

  // ---------------------------------------------------------------------------
  // Double-clicks and download events

  /** `_on_double_clicked`: in the batch view an unstageable row is reset, in the list
      view a NONE row is staged; anything else changes nothing. */
  function DoubleClicked(s: DownloadStatus, inBatch: bool): (r: Option<DownloadStatus>)
    ensures inBatch ==> (r.Some? <==> CanBeUnstaged(s)) && (r.Some? ==> r.value == NoStatus)
    ensures !inBatch ==> (r.Some? <==> s == NoStatus) && (r.Some? ==> r.value == Staged)
  {
    if inBatch && CanBeUnstaged(s) then Some(NoStatus)
    else if !inBatch && s == NoStatus then Some(Staged)
    else None
  }

  /** A double-click does what the matching menu action does to one row. */
  lemma DoubleClickIsMenuAction(s: DownloadStatus, inBatch: bool)
    ensures DoubleClicked(s, inBatch) == Transition(if inBatch then Unstage else Stage, s)
  {
  }

  /** `_on_download_finished`: a result with files marks the song DONE with those files,
      one without marks it FAILED. */
  function FinishedSong(d: SongData, files: Option<LocalFiles>): (r: SongData)
    ensures r.data == d.data && r.fuzzyText == d.fuzzyText
    ensures files.Some? ==> r.status == Done && r.localFiles == files.value
    ensures files.None? ==> r.status == Failed && r.localFiles == d.localFiles
  {
    match files
    case Some(f) => d.(status := Done, localFiles := f)
    case None => d.(status := Failed)
  }

  /** A finished song has left the queue: it can be taken off the batch, and downloaded
      again exactly when it failed. */
  lemma FinishedLeavesQueue(d: SongData, files: Option<LocalFiles>)
    ensures CanBeUnstaged(FinishedSong(d, files).status)
    ensures CanBeDownloaded(FinishedSong(d, files).status) <==> files.None?
  {
  }

  /** The row lookup of `_on_download_started` and `_on_download_finished` as written:
      `if not (row := rows.get(song_id))` returns for a missing id and for row 0 alike. */
  function NotifiedRow(rows: map<int, nat>, songId: int): (r: Option<nat>)
    ensures r.Some? ==> songId in rows && r.value == rows[songId] && r.value != 0
  {
    if songId in rows && rows[songId] != 0 then Some(rows[songId]) else None
  }

  /** The lookup the handlers are meant to make: the song's row whenever it has one. */
  function IntendedRow(rows: map<int, nat>, songId: int): (r: Option<nat>)
    ensures r.Some? <==> songId in rows
    ensures r.Some? ==> r.value == rows[songId]
  {
    if songId in rows then Some(rows[songId]) else None
  }

  /** The two lookups differ exactly for the song in the first row: as written, the song
      shown first never becomes DOWNLOADING, DONE or FAILED, and its finish is not counted. */
  lemma RowZeroIgnored(rows: map<int, nat>, songId: int)
    ensures NotifiedRow(rows, songId) != IntendedRow(rows, songId) <==> (
      songId in rows && rows[songId] == 0)
  {
  }

  /** A one-song table: its song is in row 0, and as written its events are dropped. */
  lemma {:induction false} FirstSongEventsDropped(d: SongData)
    ensures TableModel.RowIndex(TableModel.Ids([d]))[d.data.songId] == 0
    ensures NotifiedRow(TableModel.RowIndex(TableModel.Ids([d])), d.data.songId) == None
    ensures IntendedRow(TableModel.RowIndex(TableModel.Ids([d])), d.data.songId) == Some(0)
  {
    var ids := TableModel.Ids([d]);
    assert ids == [d.data.songId];
    assert TableModel.RowIndex(ids) == TableModel.RowIndex([])[d.data.songId := 0];
  }

  // ---------------------------------------------------------------------------
  // The controller

  /** `SongTable`: the table model, the progress bar and the batches handed to the
      downloader. Rows come from the views, which only show rows of the table. */
  class SongTable {
    const model: TableModel.TableModel
    const progress: Progress
    var queued: seq<seq<SongData>>

    predicate Valid()
      reads this, model
    {
      model.Valid()
    }

    constructor ()
      ensures Valid() && fresh(model) && fresh(progress)
      ensures model.songs == [] && progress.Counts() == Counters(0, 0) && queued == []
    {
      model := new TableModel.TableModel();
      progress := new Progress();
      queued := [];
    }

    /** `initialize`. */
    method Initialize(songs: seq<SongData>)
      modifies model
      ensures Valid() && model.songs == songs
    {
      model.SetData(songs);
    }

    /** `_process_rows`: applies the action to each row in turn and returns the songs it
        changed. */
    method ProcessRows(rows: seq<nat>, a: Action) returns (picked: seq<SongData>)
      requires Valid() && RowsIn(rows, model.songs)
      modifies model
      ensures Valid() && model.rows == old(model.rows)
      ensures Processed(model.songs, picked) == Process(old(model.songs), rows, a)
    {
      picked := [];
      for i := 0 to |rows|
        invariant model.rows == old(model.rows)
        invariant Processed(model.songs, picked) == Process(old(model.songs), rows[..i], a)
      {
        assert rows[..i + 1][..i] == rows[..i];
        var row := rows[i];
        var d := model.songs[row];
        match Transition(a, d.status) {
          case None =>
          case Some(t) =>
            model.songs := model.songs[row := d.(status := t)];
            picked := picked + [d.(status := t)];
        }
      }
      assert rows[..|rows|] == rows;
    }

    /** `_download`: queues the downloadable rows as PENDING and, when there is at least
        one, starts that many on the progress bar and hands them to the downloader. */
    method DownloadRows(rows: seq<nat>)
      requires Valid() && RowsIn(rows, model.songs)
      modifies model, progress, this
      ensures Valid()
      ensures model.songs == Process(old(model.songs), rows, Download).songs
      ensures var picked := Picks(old(model.songs), rows, Download); (
        if picked == [] then (progress.Counts() == old(progress.Counts()) && queued == old(queued))
        else (progress.Counts() == Started(old(progress.Counts()), |picked|)
          && queued == old(queued) + [picked]))
    {
      ProcessedPicks(model.songs, rows, Download);
      var picked := ProcessRows(rows, Download);
      if picked != [] {
        progress.Start(|picked|);
        queued := queued + [picked];
      }
    }

    /** `_stage_rows`. */
    method StageRows(rows: seq<nat>)
      requires Valid() && RowsIn(rows, model.songs)
      modifies model
      ensures Valid()
      ensures model.songs == Process(old(model.songs), rows, Stage).songs
    {
      var _ := ProcessRows(rows, Stage);
    }

    /** `unstage_selection` (the selected batch rows) and `clear_batch` (all batch rows). */
    method UnstageRows(rows: seq<nat>)
      requires Valid() && RowsIn(rows, model.songs)
      modifies model
      ensures Valid()
      ensures model.songs == Process(old(model.songs), rows, Unstage).songs
    {
      var _ := ProcessRows(rows, Unstage);
    }

    /** `_on_double_clicked` on a row of the batch view (`inBatch`) or the list view. */
    method DoubleClick(row: nat, inBatch: bool)
      requires Valid() && row < |model.songs|
      modifies model
      ensures Valid()
      ensures match DoubleClicked(old(model.songs)[row].status, inBatch)
        case None => model.songs == old(model.songs)
        case Some(t) => model.songs == old(model.songs)[row := old(model.songs)[row].(status := t)]
    {
      var d := model.songs[row];
      match DoubleClicked(d.status, inBatch) {
        case None =>
        case Some(t) =>
          var updated := model.songs[row := d.(status := t)];
          assert TableModel.Ids(updated) == TableModel.Ids(model.songs);
          model.songs := updated;
      }
    }

    /** `_on_download_started`: the song's row becomes DOWNLOADING. */
    method OnDownloadStarted(songId: int)
      requires Valid()
      modifies model
      ensures Valid()
      ensures match IntendedRow(old(model.rows), songId)
        case None => model.songs == old(model.songs)
        case Some(row) => model.songs == old(model.songs)[row := old(model.songs)[row].(status := Downloading)]
    {
      match IntendedRow(model.rows, songId) {
        case None =>
        case Some(row) =>
          var d := model.songs[row];
          var updated := model.songs[row := d.(status := Downloading)];
          assert TableModel.Ids(updated) == TableModel.Ids(model.songs);
          model.songs := updated;
      }
    }

    /** `_on_download_finished`: the song's row becomes DONE with its files or FAILED, and
        one download is counted as finished. */
    method OnDownloadFinished(songId: int, files: Option<LocalFiles>)
      requires Valid()
      modifies model, progress
      ensures Valid()
      ensures match IntendedRow(old(model.rows), songId)
        case None => model.songs == old(model.songs) && progress.Counts() == old(progress.Counts())
        case Some(row) =>
          model.songs == old(model.songs)[row := FinishedSong(old(model.songs)[row], files)]
          && progress.Counts() == Finished(old(progress.Counts()), 1)
    {
      match IntendedRow(model.rows, songId) {
        case None =>
        case Some(row) =>
          var d := model.songs[row];
          var updated := model.songs[row := FinishedSong(d, files)];
          assert TableModel.Ids(updated) == TableModel.Ids(model.songs);
          model.songs := updated;
          progress.Finish(1);
      }
    }
  }
}
