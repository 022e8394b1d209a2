/** The columns of the song table (gui/song_table/column.py). */
module Column {
  import opened Wrappers

  datatype Column =
    | SongId | Artist | Title | Language | Edition | GoldenNotes | Rating | Views
    | Pinned | Txt | Audio | Video | Cover | Background | DownloadStatus

  /** The number of members, `len(Column)`. */
  const ColumnCount: nat := 15

  /** The member's integer value: the members are numbered in declaration order from 0. */
  function Value(c: Column): (r: nat)
    ensures r < ColumnCount
  {
    match c
    case SongId => 0
    case Artist => 1
    case Title => 2
    case Language => 3
    case Edition => 4
    case GoldenNotes => 5
    case Rating => 6
    case Views => 7
    case Pinned => 8
    case Txt => 9
    case Audio => 10
    case Video => 11
    case Cover => 12
    case Background => 13
    case DownloadStatus => 14
  }

  /** `Column(i)`: the member with value `i`; any other integer raises a ValueError. */
  function FromInt(i: int): (r: Option<Column>)
    ensures r.Some? <==> 0 <= i < ColumnCount
    ensures r.Some? ==> Value(r.value) == i
  {
    if i == 0 then Some(SongId)
    else if i == 1 then Some(Artist)
    else if i == 2 then Some(Title)
    else if i == 3 then Some(Language)
    else if i == 4 then Some(Edition)
    else if i == 5 then Some(GoldenNotes)
    else if i == 6 then Some(Rating)
    else if i == 7 then Some(Views)
    else if i == 8 then Some(Pinned)
    else if i == 9 then Some(Txt)
    else if i == 10 then Some(Audio)
    else if i == 11 then Some(Video)
    else if i == 12 then Some(Cover)
    else if i == 13 then Some(Background)
    else if i == 14 then Some(DownloadStatus)
    else None
  }

  /** The values are the consecutive integers 0..14, one per member, and the download
      status column has the largest. */
  lemma ValuesAreConsecutive(c: Column, d: Column)
    ensures FromInt(Value(c)) == Some(c)
    ensures Value(c) == Value(d) ==> c == d
    ensures Value(c) <= Value(DownloadStatus)
  {
  }

  /** The header text: set exactly for the artist, title, language, edition and status
      columns. */
  function DisplayData(c: Column): (r: Option<string>)
    ensures r.Some? <==> c in {Artist, Title, Language, Edition, DownloadStatus}
    ensures r.Some? ==> r.value != ""
  {
    match c
    case Artist => Some("Artist")
    case Title => Some("Title")
    case Language => Some("Language")
    case Edition => Some("Edition")
    case DownloadStatus => Some("Status")
    case SongId | GoldenNotes | Rating | Views | Txt | Audio | Video | Cover | Background | Pinned => None
  }

  /** The fixed width: 24 for the icon columns (the five files and the pin), none for the rest. */
  function FixedSize(c: Column): (r: Option<int>)
    ensures r.Some? <==> c in {Txt, Audio, Video, Cover, Background, Pinned}
    ensures r.Some? ==> r.value == 24
  {
    match c
    case Artist | Title | Language | Edition | DownloadStatus | SongId | Views | Rating | GoldenNotes => None
    case Txt | Audio | Video | Cover | Background | Pinned => Some(24)
  }

  /** No column has both a header text and a fixed width. */
  lemma HeaderOrFixed(c: Column)
    ensures !(DisplayData(c).Some? && FixedSize(c).Some?)
  {
  }
}
