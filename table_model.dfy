/**
 * The song table's model (gui/song_table/table_model.py): the songs in table order and
 * the index from song id to row.
 */
module TableModel {
  import opened Wrappers
  import opened SongData
  import UsdbSong
  import Column

  /** The song ids of the rows, in table order. */
  function Ids(songs: seq<SongData>): (r: seq<int>)
    ensures |r| == |songs|
    ensures forall i :: 0 <= i < |songs| ==> r[i] == songs[i].data.songId
  {
    seq(|songs|, i requires 0 <= i < |songs| => songs[i].data.songId)
  }

  /** `{song.data.song_id: idx for idx, song in enumerate(songs)}` over the ids: every id
      of the table is a key, each key maps to a row holding that id, and no later row holds
      it, so of several rows with the same id the last one wins. */
  function RowIndex(ids: seq<int>): (r: map<int, nat>)
    ensures forall id :: id in r ==> r[id] < |ids| && ids[r[id]] == id
    ensures forall i :: 0 <= i < |ids| ==> ids[i] in r && r[ids[i]] >= i
  {
    if ids == [] then map[]
    else RowIndex(ids[..|ids| - 1])[ids[|ids| - 1] := |ids| - 1]
  }

  /** The keys of the index are exactly the ids of the table. */
  lemma RowIndexKeys(ids: seq<int>)
    ensures forall id :: id in RowIndex(ids) <==> id in ids
  {
  }

  /** With distinct ids, every row is found under its own id. */
  lemma DistinctRows(ids: seq<int>)
    requires forall i, j :: 0 <= i < j < |ids| ==> ids[i] != ids[j]
    ensures forall i :: 0 <= i < |ids| ==> RowIndex(ids)[ids[i]] == i
  {
  }

  /** `all_local_songs`: the songs that have a txt, in table order. */
  function LocalSongs(songs: seq<SongData>): (r: seq<UsdbSong.UsdbSong>)
    ensures |r| <= |songs|
    ensures forall i :: 0 <= i < |songs| && songs[i].localFiles.txt ==> songs[i].data in r
    ensures forall x :: x in r ==> exists i :: 0 <= i < |songs| && songs[i].localFiles.txt && songs[i].data == x
  {
    if songs == [] then []
    else
      var rest := LocalSongs(songs[1..]);
      assert forall i :: 1 <= i < |songs| ==> songs[i] == songs[1..][i - 1];
      if songs[0].localFiles.txt then [songs[0].data] + rest else rest
  }

  /** The local songs of two parts of the table follow each other in the same order. */
  lemma {:induction false} LocalSongsConcat(a: seq<SongData>, b: seq<SongData>)
    ensures LocalSongs(a + b) == LocalSongs(a) + LocalSongs(b)
  {
    if a == [] {
      assert a + b == b;
    } else {
      assert (a + b)[1..] == a[1..] + b;
      LocalSongsConcat(a[1..], b);
    }
  }

  /** `TableModel`: the rows of the song table. `Valid` is what every method keeps: the
      index is the index of the songs. */
  class TableModel {
    var songs: seq<SongData>
    var rows: map<int, nat>

    predicate Valid()
      reads this
    {
      rows == RowIndex(Ids(songs))
    }

    constructor ()
      ensures Valid() && songs == []
    {
      songs := [];
      rows := map[];
    }

    /** `set_data`. */
    method SetData(songs: seq<SongData>)
      modifies this
      ensures Valid() && this.songs == songs
    {
      this.songs := songs;
      rows := RowIndex(Ids(songs));
    }

    /** `update_item`: the row holding the new item's song is replaced; a song the table
        does not hold raises a KeyError (false here) and changes nothing. */
    method UpdateItem(item: SongData) returns (found: bool)
      requires Valid()
      modifies this
      ensures Valid() && rows == old(rows)
      ensures found <==> item.data.songId in old(rows)
      ensures found ==> songs == old(songs)[old(rows)[item.data.songId] := item]
      ensures !found ==> songs == old(songs)
    {
      if item.data.songId !in rows {
        return false;
      }
      var idx := rows[item.data.songId];
      var updated := songs[..idx] + [item] + songs[idx + 1..];
      assert updated == songs[idx := item];
      assert Ids(updated) == Ids(songs);
      songs := updated;
      return true;
    }

    /** `remove_row`: the row is dropped and the index rebuilt; a row past the end leaves
        the songs as they are. */
    method RemoveRow(row: nat)
      modifies this
      ensures Valid()
      ensures row < |old(songs)| ==> songs == old(songs)[..row] + old(songs)[row + 1..]
      ensures row >= |old(songs)| ==> songs == old(songs)
    {
      if row < |songs| {
        SetData(songs[..row] + songs[row + 1..]);
      } else {
        SetData(songs);
      }
    }

    /** `ids_for_rows`: the ids of the given rows, in the given order; a row past the end
        raises an IndexError (None). */
    function IdsForRows(rs: seq<nat>): (r: Option<seq<int>>)
      reads this
      ensures r.Some? <==> forall k :: 0 <= k < |rs| ==> rs[k] < |songs|
      ensures r.Some? ==> |r.value| == |rs| && forall k :: 0 <= k < |rs| ==> r.value[k] == songs[rs[k]].data.songId
    {
      var ids := Ids(songs);
      if forall k :: 0 <= k < |rs| ==> rs[k] < |ids| then
        Some(seq(|rs|, k requires 0 <= k < |rs| && rs[k] < |ids| => ids[rs[k]]))
      else None
    }

    /** `row_for_id`. */
    function RowForId(songId: int): (r: Option<nat>)
      reads this
      requires Valid()
      ensures r.Some? <==> exists i :: 0 <= i < |songs| && songs[i].data.songId == songId
      ensures r.Some? ==> r.value < |songs| && songs[r.value].data.songId == songId
    {
      if songId in rows then Some(rows[songId]) else None
    }

    /** `item_for_id`. */
    function ItemForId(songId: int): (r: Option<SongData>)
      reads this
      requires Valid()
      ensures r.Some? <==> exists i :: 0 <= i < |songs| && songs[i].data.songId == songId
      ensures r.Some? ==> r.value in songs && r.value.data.songId == songId
    {
      match RowForId(songId)
      case None => None
      case Some(i) => Some(songs[i])
    }

    function AllLocalSongs(): (r: seq<UsdbSong.UsdbSong>)
      reads this
      ensures |r| <= |songs|
      ensures forall i :: 0 <= i < |songs| && songs[i].localFiles.txt ==> songs[i].data in r
      ensures forall x :: x in r ==> exists i :: 0 <= i < |songs| && songs[i].localFiles.txt && songs[i].data == x
    {
      LocalSongs(songs)
    }

    /** `columnCount`: no columns below a valid parent, one per `Column` at the top. */
    function ColumnCount(parentValid: bool): (r: nat)
      ensures parentValid ==> r == 0
      ensures !parentValid ==> r == Column.ColumnCount
    {
      if parentValid then 0 else Column.ColumnCount
    }

    /** `rowCount`: no rows below a valid parent, one per song at the top. */
    function RowCount(parentValid: bool): (r: nat)
      reads this
      ensures parentValid ==> r == 0
      ensures !parentValid ==> r == |songs|
    {
      if parentValid then 0 else |songs|
    }
  }
}
