/** A song as the USDB result list shows it (usdb_song.py). */
module UsdbSong {
  import opened Wrappers
  import opened Utils
  import opened JsonValues
  import Constants

  datatype UsdbSong = UsdbSong(
    songId: int,
    artist: string,
    title: string,
    language: string,
    edition: string,
    goldenNotes: bool,
    rating: int,
    views: int)

  const StarImage: string := "star.png"

  /** `UsdbSong.from_html`: the cells of one list row, converted. The id and the view
      count go through `int` (SongId.parse is not part of this model and is taken to
      parse the same way), so a cell that is not a number raises a ValueError. */
  function FromHtml(strings: Constants.UsdbStrings, songId: string, artist: string, title: string,
                    language: string, edition: string, goldenNotes: string, rating: string,
                    views: string): (r: Result<UsdbSong, PyError>)
    ensures r.Ok? <==> ParseInt(songId).Some? && ParseInt(views).Some?
    ensures r.Err? ==> r.error == ValueError
    ensures r.Ok? ==> r.value.songId == ParseInt(songId).value && r.value.views == ParseInt(views).value
    ensures r.Ok? ==> (r.value.artist == artist && r.value.title == title
      && r.value.language == language && r.value.edition == edition)
    ensures r.Ok? ==> (r.value.goldenNotes <==> goldenNotes == strings.yes)
    ensures r.Ok? ==> (r.value.rating > 0 <==> Contains(rating, StarImage))
    ensures r.Ok? ==> r.value.rating == CountOccurrences(rating, StarImage)
  {
    match (ParseInt(songId), ParseInt(views))
    case (Some(id), Some(v)) =>
      CountPositiveIffContains(rating, StarImage);
      Ok(UsdbSong(id, artist, title, language, edition, goldenNotes == strings.yes,
                  CountOccurrences(rating, StarImage), v))
    case _ => Err(ValueError)
  }

  /** The rating counts the star images of its cell: `n` stars followed by text without
      a star give the rating `n`. */
  lemma StarsCount(n: nat, t: string)
    requires !Contains(t, StarImage)
    ensures CountOccurrences(Repeated(StarImage, n) + t, StarImage) == n
  {
    CountRepeated(StarImage, n, t);
    CountPositiveIffContains(t, StarImage);
  }

  /** `UsdbSong.from_json`: only the song id is converted; the other keys are passed to
      the constructor as they are and must be exactly its fields. */
  function FromJson(j: Json): (r: Result<UsdbSong, PyError>)
    ensures r.Ok? ==> j.JObject? && j.fields.Keys == SongKeys
    ensures r.Ok? ==> IntOf(j.fields["song_id"]) == Ok(r.value.songId)
    ensures r.Ok? ==> (j.fields["artist"] == JStr(r.value.artist) && j.fields["title"] == JStr(r.value.title)
      && j.fields["language"] == JStr(r.value.language) && j.fields["edition"] == JStr(r.value.edition)
      && j.fields["golden_notes"] == JBool(r.value.goldenNotes)
      && j.fields["rating"] == JInt(r.value.rating) && j.fields["views"] == JInt(r.value.views))
  {
    var sid :- Get(j, "song_id");
    var songId :- IntOf(sid);
    var m := j.fields;
    if m.Keys != SongKeys then Err(TypeError)
    else if !(m["artist"].JStr? && m["title"].JStr? && m["language"].JStr? && m["edition"].JStr?
              && m["golden_notes"].JBool? && m["rating"].JInt? && m["views"].JInt?) then Err(TypeError)
    else
      Ok(UsdbSong(songId, m["artist"].s, m["title"].s, m["language"].s, m["edition"].s,
                  m["golden_notes"].b, m["rating"].i, m["views"].i))
  }

  const SongKeys: set<string> :=
    {"song_id", "artist", "title", "language", "edition", "golden_notes", "rating", "views"}

  /** A song as `UsdbSongEncoder` writes it. */
  function ToJson(s: UsdbSong): (r: Json)
    ensures r.JObject? && r.fields.Keys == SongKeys
  {
    JObject(map[
      "song_id" := JInt(s.songId), "artist" := JStr(s.artist), "title" := JStr(s.title),
      "language" := JStr(s.language), "edition" := JStr(s.edition),
      "golden_notes" := JBool(s.goldenNotes), "rating" := JInt(s.rating), "views" := JInt(s.views)])
  }

  /** Songs written to the list cache are read back unchanged. */
  lemma JsonRoundTrip(s: UsdbSong)
    ensures FromJson(ToJson(s)) == Ok(s)
  {
    assert ToJson(s).fields.Keys == SongKeys;
  }
}
