# usdb_syncer core, modelled in Dafny

usdb_syncer downloads karaoke songs from USDB (usdb.animux.de). For each song it:

- fetches the song's note file (txt);
- downloads the audio, video, cover and background the txt's `#VIDEO` meta tags (or the
  song's comments) point to;
- lays everything out in one folder per song;
- records what it stored in a sync record (`.usdb` file), so a later run can reuse the
  files that are still in sync.

The GUI lists every USDB song in a table, lets the user stage songs and download them,
and narrows the list through a tree of filters.

This project models that core:

- **The per-song pipeline** (`song_loader.dfy`, `song_loader_context.dfy`). It is a state
  transformer over an abstract filesystem. `SongLoader` states every stage as a function on
  a `RunState` and proves its properties there:
  - seeding the slots from the prior record;
  - the candidate loops;
  - cleanup, the folder-name rule, persisting, and the new record.

  `SongLoaderContext.Context` runs the same stages as methods that update the context in
  place. Each method is proved equal to its stage function. `SongLoaderContext.Loader.Run`
  maps the outcome to the song's status, the database and the events posted.
- **The filename helpers** (`utils.dfy`): `sanitize_filename`, `next_unique_directory`,
  `is_name_maybe_with_suffix` and `resource_file_ending`.
- **The sync record** (`sync_meta.dfy`): decoding with its version check, the in-sync tests,
  the ordered entries, and the setters that update the record in place.
- **The scraper's decision logic** (`usdb_scraper.dfy`):
  - page classification and the retry rule;
  - pagination of the song list;
  - splitting of the comments table;
  - the order of comment videos;
  - site-language detection;
  - the login decision.
- **Songs and their search text** (`usdb_song.dfy`, `song_data.dfy`, `song_list_fetcher.dfy`):
  - list rows and the JSON cache;
  - status predicates and labels;
  - fuzzy search;
  - table cells;
  - merging fetched songs with the local files found on disk.
- **The GUI models**:
  - the song table's id→row index (`table_model.dfy`);
  - the status transitions and progress counters of the song table (`song_table.dfy`);
  - the column enum (`column.dfy`);
  - the check state of the filter tree and its proxy filter (`search_item.dfy`,
    `search_model.dfy`).

Shared pieces:

- `wrappers.dfy` holds `Option` and `Result`.
- `filesystem.dfy` is the abstract filesystem: a map from directory to the files it holds, each file with its mtime.
- `json_values.dfy` holds the decoded JSON values and Python's `dct[key]`, `int(x)` and `str` checks.
- `constants.dfy` holds the site constants.

The source calls several helpers this model does not define:

- the downloaders;
- the txt reader;
- `unidecode` and lower-casing;
- `extract_youtube_id`.

These appear as function parameters, so each contract holds for every behaviour of the helper.

## Model

| member | source | states |
|---|---|---|
| Utils.NatToStringInjective | src/usdb_syncer/utils.py:89-96 | distinct suffix numbers print as distinct text, so the suffixed names `name (n)` never collide |
| Utils.ParsePrinted | src/usdb_syncer/usdb_song.py:46-54 | parsing the decimal text of a number gives the number back |
| Utils.ParseInt | src/usdb_syncer/usdb_song.py:46-54 | `int(text)` of a plain digit string succeeds exactly for a non-empty all-digit text and yields a non-negative value |
| Utils.IdText | src/usdb_syncer/song_data.py:33-43 | the id text of a non-negative id is its digits and parses back to the id; a negative id gets a minus sign before the digits of its magnitude |
| Utils.CountPositiveIffContains | src/usdb_syncer/usdb_song.py:53 | `s.count(pat)` is positive exactly when `pat in s` |
| Utils.CountRepeated | src/usdb_syncer/usdb_song.py:53 | `n` copies of the pattern in front of a text add exactly `n` to the text's count of it |
| Utils.ReplaceCharRemoves | src/usdb_syncer/utils.py:80-86 | replacing a character by a text without it leaves none of it |
| Utils.ReplaceEachRemoves | src/usdb_syncer/utils.py:80-86 | replacing each of several characters leaves none of them, provided the replacement contains none of them |
| Utils.ReplaceEachNoop | src/usdb_syncer/utils.py:80-86 | replacing characters that are absent changes nothing |
| Utils.ApplyReplacementsRemoves | src/usdb_syncer/utils.py:80-86 | applying the replacement pairs in order removes every replaced character when no later pair reintroduces one |
| Utils.ApplyReplacementsNoop | src/usdb_syncer/utils.py:80-86 | the replacement pairs change nothing in a text free of the characters they replace |
| Utils.FilenameReplacementsFacts | src/usdb_syncer/utils.py:77 | the replacement table covers exactly the forbidden characters `? : " < > / \ \| *`, and no replacement text reintroduces one |
| Utils.SanitizedIsClean | src/usdb_syncer/utils.py:80-86 | the sanitized name contains no forbidden character and does not end with "." |
| Utils.SanitizedIdempotent | src/usdb_syncer/utils.py:80-86 | sanitizing twice is the same as sanitizing once |
| Utils.SanitizeFilename | src/usdb_syncer/utils.py:80-86 | the nested replacement loop computes the sanitized name, which is clean |
| Utils.Suffixed | src/usdb_syncer/utils.py:89-96 | a suffixed candidate is a sibling of the original path |
| Utils.SuffixedInjective | src/usdb_syncer/utils.py:89-96 | different suffix numbers give different paths |
| Utils.SuffixedIsNotPath | src/usdb_syncer/utils.py:89-96 | no suffixed candidate equals the original path |
| Utils.SuffixedUpToCard | src/usdb_syncer/utils.py:89-96 | the first k suffixed candidates are k distinct paths |
| Utils.ExistingBound | src/usdb_syncer/utils.py:89-96 | if the first k candidates all exist, at least k paths exist, which bounds the search by the number of existing paths |
| Utils.NextUniqueFrom | src/usdb_syncer/utils.py:89-96 | the search from suffix k returns a path that does not exist, with every smaller suffix taken |
| Utils.NextUniqueSpec | src/usdb_syncer/utils.py:89-96 | `next_unique_directory` returns the path itself iff it does not exist, otherwise `name (n)` for the smallest free n ≥ 1; the result never exists and stays in the same parent |
| Utils.NextUniqueDirectory | src/usdb_syncer/utils.py:89-96 | the `while` loop that bumps the suffix returns the specified unique path |
| Utils.NextUniqueNameAccepted | src/usdb_syncer/utils.py:99-104 | the name `next_unique_directory` picks is always accepted by `is_name_maybe_with_suffix` for the original name |
| Utils.NextUnique | src/usdb_syncer/utils.py:89-96 | the result does not exist yet, and a path that does not exist is kept as it is |
| Utils.IsNameMaybeWithSuffix | src/usdb_syncer/utils.py:99-104 | holds iff the text is the name or the name followed by " (", a non-empty run of digits and ")" |
| Utils.Sanitized | src/usdb_syncer/utils.py:80-86 | a sanitised file name never ends with a period |
| Utils.ResourceFileEnding | src/usdb_syncer/utils.py:124-129 | the ending is "" or a proper suffix of the name: an optional " [CO]"/" [BG]", the last ".", at least one character that is not a dot, and at least one character before it |
| Utils.TwoDotsNoEnding | src/usdb_syncer/utils.py:124-129 | text holding two periods is never an ending |
| Utils.EndingAfterStemDot | src/usdb_syncer/utils.py:124-129 | for `stem + "." + ending`, the ending is found again |
| FileSystem.WithName | src/usdb_syncer/song_loader.py:566-568 | `path.with_name(n)` stays in the same parent and carries the new name |
| FileSystem.Trash | src/usdb_syncer/song_loader.py:535-558 | trashing removes the file and leaves every other file and directory as it was |
| FileSystem.Rename | src/usdb_syncer/song_loader.py:571-579 | a rename succeeds iff the source exists and the target directory exists; the target then has the source's mtime, and the source is gone unless it is the target |
| FileSystem.WriteFile | src/usdb_syncer/song_loader.py:389-396 | writing a file sets its mtime and changes no other file |
| FileSystem.MakeDir | src/usdb_syncer/song_loader.py:561-568 | `mkdir(exist_ok=True)` adds the directory and changes no file |
| FileSystem.RenameDir | src/usdb_syncer/song_loader.py:566-568 | renaming a directory moves its files to the new name and leaves the other directories as they were |
| JsonValues.Get | src/usdb_syncer/sync_meta.py:77-89 | `dct[key]` succeeds iff the value is an object holding the key; it raises KeyError on an object and TypeError on anything else |
| JsonValues.IntOf | src/usdb_syncer/sync_meta.py:77-89 | `int(x)` keeps integers and maps True and False to 1 and 0. On a string it succeeds exactly for a non-empty run of ASCII digits, with their value; otherwise it is a ValueError (see Left out). None, lists and objects are a TypeError |
| JsonValues.StrOf | src/usdb_syncer/sync_meta.py:77-89 | a value is accepted as a string iff it is one, and then is that string; anything else is a TypeError |
| SyncMeta.NewFileMeta | src/usdb_syncer/sync_meta.py:36-38 | `FileMeta.new` succeeds iff the file exists; it records its name and resource, and the result is in sync |
| SyncMeta.IsInSync | src/usdb_syncer/sync_meta.py:46-49 | a file that is in sync exists in the folder |
| SyncMeta.FromNestedDict | src/usdb_syncer/sync_meta.py:40-44 | a falsy entry gives None, and only a falsy one does. A decoded entry comes from an object with exactly the keys fname, mtime and resource, holding a string, an integer and a string (see Left out). Every failure is TypeError |
| SyncMeta.FileMetaRoundTrip | src/usdb_syncer/sync_meta.py:40-44 | an entry written out as a dictionary is read back unchanged |
| SyncMeta.EntryRoundTrip | src/usdb_syncer/sync_meta.py:40-44 | a missing entry and a present entry both survive writing and reading |
| SyncMeta.Present | src/usdb_syncer/sync_meta.py:131-134 | the present entries are exactly those of the record that are set |
| SyncMeta.PresentConcat | src/usdb_syncer/sync_meta.py:131-134 | the present entries keep their order across concatenation |
| SyncMeta.Synced | src/usdb_syncer/sync_meta.py:111-129 | an entry is returned iff it is present and in sync with the folder |
| SyncMeta.SyncMeta.constructor | src/usdb_syncer/sync_meta.py:65-67 | `SyncMeta.new` has no entries and the current version |
| SyncMeta.SyncMeta.Entries | src/usdb_syncer/sync_meta.py:131-134 | the record has five file entries |
| SyncMeta.SyncMeta.FileMetas | src/usdb_syncer/sync_meta.py:131-134 | the result is exactly the set entries, in the order txt, audio, video, cover, background |
| SyncMeta.PresentFive | src/usdb_syncer/sync_meta.py:131-134 | the present entries of five slots are the set ones, in slot order |
| SyncMeta.SyncMeta.SyncedAudio | src/usdb_syncer/sync_meta.py:111-114 | the audio entry when it is present and in sync, else None |
| SyncMeta.SyncMeta.SyncedVideo | src/usdb_syncer/sync_meta.py:116-119 | the video entry when it is present and in sync, else None |
| SyncMeta.SyncMeta.SyncedCover | src/usdb_syncer/sync_meta.py:121-124 | the cover entry when it is present and in sync, else None |
| SyncMeta.SyncMeta.SyncedBackground | src/usdb_syncer/sync_meta.py:126-129 | the background entry when it is present and in sync, else None |
| SyncMeta.SyncMeta.SetTxtMeta | src/usdb_syncer/sync_meta.py:96-97 | the txt entry is set to the file, with resource `BASE_URL + "?link=gettxt&id="` followed by the record's own song id, which parses back to that id; a missing file raises, and the entry is then unchanged |
| SyncMeta.SyncMeta.SetAudioMeta | src/usdb_syncer/sync_meta.py:99-100 | the audio entry is set to the file and resource; a missing file leaves the entry unchanged |
| SyncMeta.SyncMeta.SetVideoMeta | src/usdb_syncer/sync_meta.py:102-103 | the video entry is set to the file and resource; a missing file leaves the entry unchanged |
| SyncMeta.SyncMeta.SetCoverMeta | src/usdb_syncer/sync_meta.py:105-106 | the cover entry is set to the file and resource; a missing file leaves the entry unchanged |
| SyncMeta.SyncMeta.SetBackgroundMeta | src/usdb_syncer/sync_meta.py:108-109 | the background entry is set to the file and resource; a missing file leaves the entry unchanged |
| SyncMeta.DecodeDict | src/usdb_syncer/sync_meta.py:77-89 | a stored version above 1 is SyncMetaTooNewError, and only that. A decoded record has a version of at most 1. Its song id is `int(dct["song_id"])`, its meta tags are the stored string, and its five entries are the stored entries decoded |
| SyncMeta.DictRoundTrip | src/usdb_syncer/sync_meta.py:137-145 | every record of a version the reader accepts decodes to the id, meta tags and entries the encoder wrote |
| SyncMeta.SyncMeta.ToJson | src/usdb_syncer/sync_meta.py:137-145 | the encoder writes an object with the keys song_id, meta_tags, txt, audio, video, cover, background and version, and the stored version reads back as the record's version |
| SyncMeta.StoredVersion | src/usdb_syncer/sync_meta.py:79 | `int(dct["version"])` succeeds iff the value is an object holding an integer-like version. A missing key is KeyError, and a value that is not an object is TypeError |
| SyncMeta.FromDict | src/usdb_syncer/sync_meta.py:77-89 | `from_dict` builds a new record holding the decoded fields, or fails with the decoding error |
| SyncMeta.TryFromFile | src/usdb_syncer/sync_meta.py:69-75 | given the file's decoded text: a too-new version propagates as SyncMetaTooNewError. A JSON decoding error or any other error `from_dict` raises gives None. A valid record gives a new record holding the decoded id, meta tags and five entries, at the current version |
| UsdbSong.FromHtml | src/usdb_syncer/usdb_song.py:32-55 | a list row parses iff its id and its views are integers; golden notes iff the cell reads YES; the rating is the number of star images in its cell (positive iff there is one); the text fields are copied verbatim |
| UsdbSong.StarsCount | src/usdb_syncer/usdb_song.py:53 | a cell of n star images followed by text without one has rating n |
| UsdbSong.FromJson | src/usdb_syncer/usdb_song.py:27-30 | only the song id is converted with `int`. The other seven keys are taken as they are, with the types the song declares (see Left out). Exactly the song's keys are accepted |
| UsdbSong.ToJson | src/usdb_syncer/usdb_song.py:58-64 | the encoder writes an object with exactly the song's keys |
| UsdbSong.JsonRoundTrip | src/usdb_syncer/usdb_song.py:58-64 | songs written by the encoder are read back unchanged |
| Column.Value | src/usdb_syncer/gui/song_table/column.py:11-28 | every column's value is below the number of columns |
| Column.FromInt | src/usdb_syncer/gui/song_table/column.py:11-28 | an integer is a column iff it is in 0..14, and that column's value is the integer |
| Column.ValuesAreConsecutive | src/usdb_syncer/gui/song_table/column.py:11-28 | the values are distinct, each maps back to its column, and DOWNLOAD_STATUS is the largest |
| Column.DisplayData | src/usdb_syncer/gui/song_table/column.py:30-56 | a header text exists exactly for ARTIST, TITLE, LANGUAGE, EDITION and DOWNLOAD_STATUS, and it is never empty |
| Column.FixedSize | src/usdb_syncer/gui/song_table/column.py:95-119 | the size is 24 exactly for TXT, AUDIO, VIDEO, COVER, BACKGROUND and PINNED, and None for the rest |
| Column.HeaderOrFixed | src/usdb_syncer/gui/song_table/column.py:30-119 | no column has both a header text and a fixed size |
| SongData.StatusValue | src/usdb_syncer/song_data.py:119-127 | the status values lie in 0..5 |
| SongData.StatusText | src/usdb_syncer/song_data.py:129-142 | the label is empty exactly for NONE and STAGED |
| SongData.StatusTable | src/usdb_syncer/song_data.py:129-156 | `can_be_downloaded` holds for NONE, STAGED, FAILED and `can_be_unstaged` for STAGED, DONE, FAILED; neither holds for PENDING/DOWNLOADING; an empty label means downloadable; the values are distinct |
| SongData.CanBeDownloaded | src/usdb_syncer/song_data.py:151-156 | a PENDING, DOWNLOADING or DONE song cannot be downloaded |
| SongData.CanBeUnstaged | src/usdb_syncer/song_data.py:144-149 | a NONE, PENDING or DOWNLOADING song cannot be unstaged |
| SongData.ReplaceKeepsAbsent | src/usdb_syncer/song_data.py:61-65 | `str.replace` introduces no character that neither the text nor the replacement has |
| SongData.ReplaceAll | src/usdb_syncer/song_data.py:64 | replacing a pattern by a text of the same length keeps the length |
| SongData.ReplaceRemovesChar | src/usdb_syncer/song_data.py:61-65 | replacing a single character by a text without it leaves none of it |
| SongData.FuzzText | src/usdb_syncer/song_data.py:61-65 | the loop over `REPLACEMENTS` computes the fuzzed text of the normalised input |
| SongData.RemovedStaysRemoved | src/usdb_syncer/song_data.py:47 | once a pair removes a character, no later pair brings it back |
| SongData.FuzzedIsClean | src/usdb_syncer/song_data.py:47-65 | fuzzed text contains no "&", "!", "?" or "/" |
| SongData.NewFuzzySearchText | src/usdb_syncer/song_data.py:23-31 | the search text holds the id text and the fuzzed artist, title, language and edition |
| SongData.FuzzySearchText.Matches | src/usdb_syncer/song_data.py:33-43 | the empty text is in every search text |
| SongData.MatchesSubstring | src/usdb_syncer/song_data.py:33-43 | every part of a matching query matches too, and the empty query matches every song |
| SongData.MatchesOwnId | src/usdb_syncer/song_data.py:33-43 | a song is found by its own id |
| SongData.FromSyncMeta | src/usdb_syncer/song_data.py:107-116 | the record path is kept, and each kind's flag is set iff the record holds that entry |
| SongData.PresentLength | src/usdb_syncer/sync_meta.py:131-134 | the number of present entries is the number of set entries |
| SongData.FlagsCountFileMetas | src/usdb_syncer/song_data.py:107-116 | there are as many flags set as files the record lists |
| SongData.SongData.WithLocalFiles | src/usdb_syncer/song_data.py:179-180 | only the local files change; the song, search text and status stay |
| SongData.FromUsdbSong | src/usdb_syncer/song_data.py:170-177 | the song data holds the song, the files, the status and the song's fuzzy search text |
| SongData.RatingText | src/usdb_syncer/song_data.py:277-279 | n star characters for a rating of n, and none for a rating of 0 or less |
| SongData.YesNoText | src/usdb_syncer/song_data.py:282-283 | "Yes" for true, "No" for false |
| SongData.DisplayData | src/usdb_syncer/song_data.py:182-212 | the file columns (9..13) show None; DOWNLOAD_STATUS shows the status label; PINNED has no branch and reaches `assert_never`; a non-column is an error |
| SongData.SortData | src/usdb_syncer/song_data.py:242-274 | DOWNLOAD_STATUS sorts by the status value and the file columns by their flags; PINNED reaches `assert_never` |
| SongData.DisplayAndSortAgree | src/usdb_syncer/song_data.py:182-274 | display and sort fail for the same columns, and every column that displays nothing sorts by a flag |
| SongListFetcher.DumpAvailableSongs | src/usdb_syncer/song_list_fetcher.py:56-58 | the cache holds one JSON object per song, and each reads back as that song |
| SongListFetcher.SongsFrom | src/usdb_syncer/song_list_fetcher.py:46-53 | the cached objects all parse and are kept in order; a failing one raises ValueError |
| SongListFetcher.LoadCachedSongs | src/usdb_syncer/song_list_fetcher.py:46-53 | a missing cache gives None; otherwise the cache's songs are parsed |
| SongListFetcher.CacheRoundTrip | src/usdb_syncer/song_list_fetcher.py:46-58 | songs dumped to the cache load back unchanged |
| SongListFetcher.MaxId | src/usdb_syncer/song_list_fetcher.py:40-41 | the largest song id of a non-empty song list |
| SongListFetcher.GetAvailableSongs | src/usdb_syncer/song_list_fetcher.py:35-43 | with `force_reload` the list is fetched from skip id 0; otherwise the cached songs come first, followed by the fetched songs with ids above the largest cached id; a missing or empty cache raises |
| SongListFetcher.GetSongTxt | src/usdb_syncer/song_list_fetcher.py:77-84 | the txt headers are read only when the record lists a txt that exists in the folder |
| SongListFetcher.MetaAt | src/usdb_syncer/song_list_fetcher.py:61-74 | a record from a newer release is an error; otherwise an unreadable record is skipped |
| SongListFetcher.FilesFor | src/usdb_syncer/song_list_fetcher.py:61-90 | the txt flag is set iff the txt was read; the media flags are set only then, each iff the header names a file that exists |
| SongListFetcher.LocalFilesFrom | src/usdb_syncer/song_list_fetcher.py:61-74 | the loop fails iff some record is too new |
| SongListFetcher.LocalFilesKeys | src/usdb_syncer/song_list_fetcher.py:61-74 | the songs with an entry are exactly those found earlier plus those whose record was read; a song no later record names keeps its entry |
| SongListFetcher.LastRecordWins | src/usdb_syncer/song_list_fetcher.py:61-74 | of several records of the same song, the last one found decides that song's files |
| SongListFetcher.FindLocalFiles | src/usdb_syncer/song_list_fetcher.py:61-74 | the loop that fills the dictionary computes the specified map |
| SongListFetcher.ReadRecordFile | src/usdb_syncer/song_list_fetcher.py:64-72 | a record from a newer release raises; an unreadable record yields nothing; a readable one yields its song id with the local files `FilesFor` describes |
| SongListFetcher.FilesOf | src/usdb_syncer/song_list_fetcher.py:18-24 | a song's local files, or the empty default when none were found |
| SongListFetcher.GetAllSongData | src/usdb_syncer/song_list_fetcher.py:18-24 | succeeds iff fetching and the local scan succeed; gives one entry per song, in order, with its files and status NONE |
| SongListFetcher.ResyncSongData | src/usdb_syncer/song_list_fetcher.py:27-32 | fails exactly when `find_local_files` raised, with its error (a record from a newer release); otherwise the same length and order, each entry with the newly found local files |
| SongListFetcher.ResyncKeepsSongs | src/usdb_syncer/song_list_fetcher.py:27-32 | a successful scan makes the resync succeed; resyncing keeps every song and status, and a second resync with the same files changes nothing |
| UsdbScraper.CommentVideos | src/usdb_syncer/usdb_scraper.py:196-204 | the videos are exactly those the comments link |
| UsdbScraper.CommentVideosConcat | src/usdb_syncer/usdb_scraper.py:196-204 | videos of earlier comments come before those of later comments |
| UsdbScraper.SingleCommentVideos | src/usdb_syncer/usdb_scraper.py:196-204 | within a comment, the YouTube ids come before the other URLs |
| UsdbScraper.SongDetails.AllCommentVideos | src/usdb_syncer/usdb_scraper.py:196-204 | the videos are exactly those the comments link |
| UsdbScraper.OtherUrls | src/usdb_syncer/usdb_scraper.py:462-478 | a URL is among the other URLs exactly when it is a comment URL that is not a YouTube link |
| UsdbScraper.YoutubeIds | src/usdb_syncer/usdb_scraper.py:462-478 | at most one id per URL, and no id is empty |
| UsdbScraper.SingleUrlRouted | src/usdb_syncer/usdb_scraper.py:473-476 | a single URL goes to the ids, as its id, iff the extractor finds a non-empty id; otherwise it goes to the other URLs |
| UsdbScraper.UrlListsConcat | src/usdb_syncer/usdb_scraper.py:473-476 | both lists keep URL order: the results for a concatenation are the concatenated results |
| UsdbScraper.UrlsPartitioned | src/usdb_syncer/usdb_scraper.py:462-478 | the two lists together are as long as the URLs. A YouTube URL's id is among the ids and the URL is not among the other URLs. Every other URL is among the other URLs. Every id comes from a YouTube URL |
| UsdbScraper.ParseCommentContents | src/usdb_syncer/usdb_scraper.py:462-478 | the loop keeps the text. The ids it collects are `YoutubeIds` of the URLs and the other URLs are `OtherUrls`, both in URL order |
| UsdbScraper.SplitPair | src/usdb_syncer/usdb_scraper.py:446-459 | unpacking `split(" \| ")` into two parts succeeds only when the separator occurs; the parts rebuild the text |
| UsdbScraper.FirstMatch | src/usdb_syncer/usdb_scraper.py:446-459 | the first position of the separator, or None when it does not occur |
| UsdbScraper.CommentsFrom | src/usdb_syncer/usdb_scraper.py:436-459 | the comments read are a prefix of the rows; reading stops at the first header without " \| " |
| UsdbScraper.HeaderComment | src/usdb_syncer/usdb_scraper.py:446-459 | a header without the separator yields no comment |
| UsdbScraper.ParseCommentsTable | src/usdb_syncer/usdb_scraper.py:436-459 | the loop drops the last header row and reads the comments of the rest |
| UsdbScraper.PrependStep | src/usdb_syncer/usdb_scraper.py:436-459 | reading one comment moves it from the rows still to read onto the list |
| UsdbScraper.WelcomeRoundTrip | src/usdb_syncer/usdb_scraper.py:314-322 | each site language is recognised by its own greeting |
| UsdbScraper.StringsFromWelcome | src/usdb_syncer/usdb_scraper.py:314-322 | the language is found iff the greeting is "Welcome", "Willkommen" or "Bienvenue", and it is the language with that greeting; anything else is a parse error |
| UsdbScraper.StringsFromHtml | src/usdb_syncer/usdb_scraper.py:308-311 | a page without a greeting raises a parse error |
| UsdbScraper.ClassifyPage | src/usdb_syncer/usdb_scraper.py:274-278 | the login marker raises UsdbLoginError and is checked first; otherwise "Datensatz nicht gefunden" raises UsdbNotFoundError; otherwise the page is returned |
| UsdbScraper.Attempt | src/usdb_syncer/usdb_scraper.py:251-278 | a dropped connection and an error status are failures of their own; a delivered page is classified |
| UsdbScraper.GetUsdbPage | src/usdb_syncer/usdb_scraper.py:207-248 | at most two requests: a retry only after a connection error, or after a login error on a global session that already existed; the session is reset before the retry iff no custom session was passed |
| UsdbScraper.Retries | src/usdb_syncer/usdb_scraper.py:237-248 | only a failed first attempt is retried, and never a missing song |
| UsdbScraper.NotFoundIsFinal | src/usdb_syncer/usdb_scraper.py:225-248 | a missing song is never requested twice |
| UsdbScraper.EstablishLogin | src/usdb_syncer/usdb_scraper.py:44-59 | an existing login is used without posting; credentials are posted only when both user and password are set; the result says whether the user is logged in |
| UsdbScraper.PageSongs | src/usdb_syncer/usdb_scraper.py:325-369 | a page contributes at most one song per row, and only songs with ids above the skip id |
| UsdbScraper.KeptRows | src/usdb_syncer/usdb_scraper.py:361-362 | every kept row has an integer id above the skip id, and every such row is kept |
| UsdbScraper.RowSong | src/usdb_syncer/usdb_scraper.py:348-360 | a song built from a list row has the row's id |
| UsdbScraper.PageSongsSpec | src/usdb_syncer/usdb_scraper.py:325-369 | a page succeeds iff every row id is an integer and every kept row makes a song. The songs are then those of the kept rows, one per row, in row order |
| UsdbScraper.AvailableFrom | src/usdb_syncer/usdb_scraper.py:325-369 | every song collected has an id above the skip id |
| UsdbScraper.GetUsdbAvailableSongs | src/usdb_syncer/usdb_scraper.py:325-369 | the loop requests starts 0, 100, 200, … below the largest id and reads on only after a full page of new songs |
| SongLoader.TempResourceFile.Path | src/usdb_syncer/song_loader.py:108-109 | the new path when set, else the old path |
| SongLoader.TempResourceFile.PathAndResource | src/usdb_syncer/song_loader.py:103-106 | a pair exists iff there is a path and a non-empty resource |
| SongLoader.TempResourceFile.ToResourceFile | src/usdb_syncer/song_loader.py:111-114 | None unless both a path and a resource are set; otherwise the file's name, resource and current mtime, and an error when the file does not exist |
| SongLoader.KeptNameAddsDot | src/usdb_syncer/song_loader.py:553-554 | a kept file is renamed to stem + "." + its ending; since the ending starts with a dot, the name has two dots |
| SongLoader.KeptNameIsStable | src/usdb_syncer/song_loader.py:535-558 | the renamed file keeps its ending, so a second cleanup finds it under its target name |
| SongLoader.NewFolder | src/usdb_syncer/song_loader.py:55-64 | the prior record's folder, or else a fresh folder in the song directory whose name is the stem, possibly suffixed |
| SongLoader.NewRecord | src/usdb_syncer/song_loader.py:158-168 | a song without a record gets a fresh id, is not pinned and has no entries |
| SongLoader.Seeded | src/usdb_syncer/song_loader.py:144-156 | a slot is seeded iff the prior entry exists and is in sync; it then takes the entry's resource and old path `folder/fname`; otherwise it stays empty |
| SongLoader.SeedSlots | src/usdb_syncer/song_loader.py:144-156 | txt is never seeded; audio, video, cover and background are seeded from the record |
| SongLoader.FreshRecordSeedsNothing | src/usdb_syncer/song_loader.py:144-168 | with no prior record, all five slots stay empty |
| SongLoader.InitialState | src/usdb_syncer/song_loader.py:158-168 | the run starts with the temp directory made, the folder chosen by `Locations.new`, and the slots seeded from the prior record or a new one |
| SongLoader.CandidateOrder | src/usdb_syncer/song_loader.py:170-180 | audio candidates start with the meta audio, then the meta video, then the comment videos; video candidates are the meta video and the comment videos |
| SongLoader.AudioCandidates | src/usdb_syncer/song_loader.py:170-175 | the audio tag comes first when set, and the video candidates follow it, all of them and in order |
| SongLoader.VideoCandidates | src/usdb_syncer/song_loader.py:177-180 | the video tag comes first when set, and the comment videos follow it, all of them and in order |
| SongLoader.FirstTen | src/usdb_syncer/song_loader.py:292-312 | at most ten candidates, taken from the front |
| SongLoader.FirstFetch | src/usdb_syncer/song_loader.py:292-334 | the loop stops at a candidate equal to the seeded resource, or at the first one fetched successfully |
| SongLoader.FirstFetchIsFirst | src/usdb_syncer/song_loader.py:292-334 | every candidate before the stop was neither unchanged nor fetched successfully |
| SongLoader.AvStage | src/usdb_syncer/song_loader.py:292-334 | only the stage's own slot changes; a disabled stage changes nothing; a successful fetch sets the resource and the temp path; if every candidate fails, the slot stays as seeded |
| SongLoader.AudioStage | src/usdb_syncer/song_loader.py:292-312 | only the audio slot can change; with audio off nothing changes; a new audio resource is one of the audio candidates |
| SongLoader.VideoStage | src/usdb_syncer/song_loader.py:315-334 | only the video slot can change; with video off or an audio-only song nothing changes; a new video resource is one of the video candidates |
| SongLoader.CoverUrl | src/usdb_syncer/song_loader.py:182-192 | the meta-tag cover URL, else the USDB cover URL, else none |
| SongLoader.ImageStage | src/usdb_syncer/song_loader.py:337-386 | a disabled stage or missing URL changes nothing; an unchanged URL or failed fetch leaves the slot; a fetched image sets the resource and temp path |
| SongLoader.CoverStage | src/usdb_syncer/song_loader.py:337-359 | only the cover slot can change; with covers off nothing changes; a new cover resource is the cover URL |
| SongLoader.BackgroundStage | src/usdb_syncer/song_loader.py:362-386 | only the background slot can change; with backgrounds off or not allowed nothing changes; a new background resource is the background tag |
| SongLoader.Downloads | src/usdb_syncer/song_loader.py:261-281 | the download stages leave the txt slot, the folder and the record alone |
| SongLoader.UnchangedResourcesFetchNothing | src/usdb_syncer/song_loader.py:292-386 | when every enabled slot already holds its first candidate, the downloads fetch nothing and change nothing |
| SongLoader.TagStage | src/usdb_syncer/song_loader.py:410-428 | tags are written only when audio is enabled and the audio resource string is ".m4a", ".mp3" or ".ogg"; nothing else changes |
| SongLoader.UrlSelectsNoTagWriter | src/usdb_syncer/song_loader.py:417 | an audio resource that is a URL selects no tag writer, so no tags are written |
| SongLoader.CleanupEntry | src/usdb_syncer/song_loader.py:535-558 | handles one prior entry: trash the file if unseeded; trash the old path if replaced; rename a kept file to stem + "." + ending |
| SongLoader.CleanupFrom | src/usdb_syncer/song_loader.py:535-558 | cleanup changes only the old paths; a rename that fails ends the run |
| SongLoader.EnsureFolder | src/usdb_syncer/song_loader.py:561-568 | the folder exists afterwards and its name is the stem, possibly suffixed; it is renamed only when its name was neither |
| SongLoader.EnsureFolderMoves | src/usdb_syncer/song_loader.py:561-568 | a renamed folder keeps its contents under its new name beside the old one, and the old name is gone |
| SongLoader.WriteHeaders | src/usdb_syncer/song_loader.py:399-407 | each header names its slot's file when that slot has a path, else keeps its old value |
| SongLoader.WriteTxt | src/usdb_syncer/song_loader.py:389-396 | with txt enabled, the headers are rewritten and the txt is written to the temp directory and staged; otherwise nothing changes |
| SongLoader.PersistSlot | src/usdb_syncer/song_loader.py:571-579 | a staged file moves into the folder under its own name, after the occupant is trashed, and its new path becomes the target |
| SongLoader.PersistFrom | src/usdb_syncer/song_loader.py:571-579 | every staged file is moved into the folder |
| SongLoader.DropTemp | src/usdb_syncer/song_loader.py:263-279 | leaving the temporary directory removes it and nothing else |
| SongLoader.ResourceFilesFrom | src/usdb_syncer/song_loader.py:582-598 | one entry per slot; fails iff some slot's file is missing |
| SongLoader.WriteSyncMeta | src/usdb_syncer/song_loader.py:582-598 | the record keeps its id and pinned flag, is written to `folder/<id file>`, and stores each slot's `to_resource_file()` |
| SongLoader.FromUsdbError | src/usdb_syncer/song_loader.py:234-259 | a login error and a missing song keep their meaning; every other error is generic |
| SongLoader.Commit | src/usdb_syncer/song_loader.py:273-277 | once cleanup, renaming, the txt file and the moves succeed, the song folder is named after the song's stem and the record is as before |
| SongLoader.RunInner | src/usdb_syncer/song_loader.py:261-281 | a failed details fetch ends the run with its error; a finished run's folder is named after the stem; the record keeps the prior id and pinned flag, or gets a fresh unpinned id |
| SongLoader.StaleOldPathFails | src/usdb_syncer/song_loader.py:566-598 | renaming the folder leaves kept slots pointing into the old folder, so writing the record fails |
| SongLoader.MissingFileFailsRecord | src/usdb_syncer/song_loader.py:582-598 | a slot with a path and resource whose file is missing makes writing the record fail |
| SongLoader.UpdatedSong | src/usdb_syncer/song_loader.py:212-221 | the song takes artist, title, golden notes, rating and views from USDB, and language and edition from the txt |
| SongLoader.ChangeEvent | src/usdb_syncer/song_loader.py:234-259 | the event is SongDeleted exactly for a missing song, otherwise SongChanged |
| SongLoaderContext.Context.constructor | src/usdb_syncer/song_loader.py:144-168 | the context starts in the initial state |
| SongLoaderContext.Context.DownloadFirstCandidate | src/usdb_syncer/song_loader.py:292-334 | the candidate loop updates the slot in place exactly as the stage function says |
| SongLoaderContext.Context.TryCandidate | src/usdb_syncer/song_loader.py:296-309 | one candidate: the current resource stops the loop untouched; otherwise it is handed to the fetcher, and a file it yields takes over the slot from the temp directory and stops the loop |
| SongLoaderContext.Context.MaybeDownloadAudio | src/usdb_syncer/song_loader.py:292-312 | updates the audio slot as the audio stage says |
| SongLoaderContext.Context.MaybeDownloadVideo | src/usdb_syncer/song_loader.py:315-334 | updates the video slot as the video stage says, skipping it when video is off or the song is audio only |
| SongLoaderContext.Context.DownloadImage | src/usdb_syncer/song_loader.py:337-386 | updates an image slot as the image stage says |
| SongLoaderContext.Context.MaybeDownloadCover | src/usdb_syncer/song_loader.py:337-359 | updates the cover slot as the cover stage says |
| SongLoaderContext.Context.MaybeDownloadBackground | src/usdb_syncer/song_loader.py:362-386 | updates the background slot as the background stage says |
| SongLoaderContext.Context.MaybeWriteAudioTags | src/usdb_syncer/song_loader.py:410-428 | writes tags as the tag stage says |
| SongLoaderContext.Context.CleanupExistingResource | src/usdb_syncer/song_loader.py:535-558 | the cleanup loop succeeds iff the cleanup function does, and reaches its state |
| SongLoaderContext.Context.CleanupOne | src/usdb_syncer/song_loader.py:542-558 | one pass of the cleanup loop trashes or renames the entry's file exactly as `CleanupEntry` says, and fails when the rename does |
| SongLoaderContext.Context.EnsureCorrectFolderName | src/usdb_syncer/song_loader.py:561-568 | succeeds iff the folder step does, and reaches its state |
| SongLoaderContext.Context.MoveToUniqueSibling | src/usdb_syncer/song_loader.py:566-568 | the folder is renamed to the first sibling name after the stem that is not taken, and the context follows it; nothing else changes |
| SongLoaderContext.Context.MaybeWriteTxt | src/usdb_syncer/song_loader.py:389-396 | writes the txt as the txt step says |
| SongLoaderContext.Context.WriteHeadersInPlace | src/usdb_syncer/song_loader.py:399-407 | the headers become `WriteHeaders` of the slots and nothing else in the context changes |
| SongLoaderContext.Context.PersistTempfiles | src/usdb_syncer/song_loader.py:571-579 | the persist loop succeeds iff the persist function does, and reaches its state |
| SongLoaderContext.Context.PersistOne | src/usdb_syncer/song_loader.py:573-579 | one pass of the persist loop moves the slot's file exactly as `PersistSlot` says, and fails when it does |
| SongLoaderContext.Context.RemoveTempdir | src/usdb_syncer/song_loader.py:263-279 | removes the temporary directory |
| SongLoaderContext.Context.WriteSyncMetaFile | src/usdb_syncer/song_loader.py:582-598 | sets the new record as the record step says |
| SongLoaderContext.ReuseInSync | src/usdb_syncer/song_loader.py:144-156 | the seeding loop fills the slots exactly as `SeedSlots` says |
| SongLoaderContext.RunPipeline | src/usdb_syncer/song_loader.py:261-281 | the stage methods called in order compute `RunInner` |
| SongLoaderContext.Context.CommitStages | src/usdb_syncer/song_loader.py:264-277 | cleanup, folder renaming, the txt file, the moves and the end of the temp directory, run in order on the context, succeed iff `Commit` does and reach its state |
| SongLoaderContext.Loader.constructor | src/usdb_syncer/song_loader.py:227-232 | a loader starts with the song, its record and status, and no events |
| SongLoaderContext.Loader.Run | src/usdb_syncer/song_loader.py:234-281 | posts SongChanged, then one change event, then DownloadFinished. On success the updated song is stored with status NONE and its new record; a missing song is deleted; any other error marks it FAILED |
| SongLoaderContext.Loader.Finish | src/usdb_syncer/song_loader.py:234-259 | maps the run's outcome to the database, the status and the two closing events |
| TableModel.RowIndex | src/usdb_syncer/gui/song_table/table_model.py:39-43 | every id of the table is a key and maps to a row holding that id; of duplicate ids, the last row wins |
| TableModel.RowIndexKeys | src/usdb_syncer/gui/song_table/table_model.py:39-43 | the keys are exactly the table's ids |
| TableModel.DistinctRows | src/usdb_syncer/gui/song_table/table_model.py:39-43 | with distinct ids, every row is found under its own id |
| TableModel.LocalSongs | src/usdb_syncer/gui/song_table/table_model.py:66-67 | exactly the songs that have a txt |
| TableModel.LocalSongsConcat | src/usdb_syncer/gui/song_table/table_model.py:66-67 | the local songs keep table order |
| TableModel.TableModel.AllLocalSongs | src/usdb_syncer/gui/song_table/table_model.py:66-67 | exactly the songs of the table that have a txt, and no more songs than rows |
| TableModel.TableModel.constructor | src/usdb_syncer/gui/song_table/table_model.py:34-37 | an empty table with a consistent index |
| TableModel.TableModel.SetData | src/usdb_syncer/gui/song_table/table_model.py:39-43 | the table holds the songs, and the index is rebuilt |
| TableModel.TableModel.UpdateItem | src/usdb_syncer/gui/song_table/table_model.py:45-50 | replaces only the row at the song's index, keeping length and index; an unknown id raises KeyError and changes nothing |
| TableModel.TableModel.RemoveRow | src/usdb_syncer/gui/song_table/table_model.py:52-53 | removes exactly that row and rebuilds the index; a row past the end leaves the songs as they are |
| TableModel.TableModel.IdsForRows | src/usdb_syncer/gui/song_table/table_model.py:55-56 | the ids of the rows in the given order; a row past the end raises IndexError |
| TableModel.TableModel.RowForId | src/usdb_syncer/gui/song_table/table_model.py:63-64 | a row is found iff some row holds the id, and it holds that id |
| TableModel.TableModel.ItemForId | src/usdb_syncer/gui/song_table/table_model.py:58-61 | the song with the id if the table holds one, else None |
| TableModel.TableModel.ColumnCount | src/usdb_syncer/gui/song_table/table_model.py:76-77 | 0 below a valid parent, else the number of columns |
| TableModel.TableModel.RowCount | src/usdb_syncer/gui/song_table/table_model.py:79-80 | 0 below a valid parent, else the number of songs |
| SongTable.Started | src/usdb_syncer/gui/song_table/song_table.py:62-67 | when `running == finished` the counters restart at (count, 0); otherwise count is added to running |
| SongTable.Finished | src/usdb_syncer/gui/song_table/song_table.py:69-71 | only finished grows |
| SongTable.CountersStayInRange | src/usdb_syncer/gui/song_table/song_table.py:53-75 | finishing no more than was started keeps 0 ≤ finished ≤ running |
| SongTable.BatchCompletes | src/usdb_syncer/gui/song_table/song_table.py:53-75 | a batch of n started after the last one completed counts up to (n, n), and the next start begins afresh |
| SongTable.Progress.constructor | src/usdb_syncer/gui/song_table/song_table.py:54-60 | the counters start at zero |
| SongTable.Progress.Start | src/usdb_syncer/gui/song_table/song_table.py:62-67 | updates the counters as `Started` says |
| SongTable.Progress.Finish | src/usdb_syncer/gui/song_table/song_table.py:69-71 | updates the counters as `Finished` says |
| SongTable.Transition | src/usdb_syncer/gui/song_table/song_table.py:123-178 | download marks PENDING exactly the downloadable statuses; stage moves only NONE to STAGED; unstage moves the unstageable statuses to NONE |
| SongTable.TransitionSettles | src/usdb_syncer/gui/song_table/song_table.py:123-178 | an action never applies twice to the status it produced |
| SongTable.Step | src/usdb_syncer/gui/song_table/song_table.py:142-148 | an action changes only the status of a song |
| SongTable.StepSettles | src/usdb_syncer/gui/song_table/song_table.py:142-148 | repeating an action changes nothing; an action that does not apply leaves the song unchanged |
| SongTable.Process | src/usdb_syncer/gui/song_table/song_table.py:142-148 | processing rows keeps the table's length and ids |
| SongTable.ProcessedRows | src/usdb_syncer/gui/song_table/song_table.py:142-148 | every named row takes the action's step, and every other row is unchanged |
| SongTable.ProcessedPicked | src/usdb_syncer/gui/song_table/song_table.py:123-148 | no more songs are picked than rows named, and each picked song is the stepped song of a named row the action applied to |
| SongTable.ProcessedPickedSome | src/usdb_syncer/gui/song_table/song_table.py:123-148 | some song is picked iff some named row qualified |
| SongTable.Picks | src/usdb_syncer/gui/song_table/song_table.py:123-148 | at most one song per named row |
| SongTable.ProcessedPicks | src/usdb_syncer/gui/song_table/song_table.py:123-148 | the songs `_process_rows` hands on are exactly `Picks`: the first naming of each row the action applies to, in row order, in its new status |
| SongTable.PicksComplete | src/usdb_syncer/gui/song_table/song_table.py:123-148 | every named row the action applies to has its new song among the picks |
| SongTable.PicksIgnoreRepeat | src/usdb_syncer/gui/song_table/song_table.py:123-148 | naming a row again does not change the picks |
| SongTable.PicksInRowOrder | src/usdb_syncer/gui/song_table/song_table.py:123-148 | for distinct rows that all qualify, the k-th pick is the k-th row in its new status |
| SongTable.DoubleClicked | src/usdb_syncer/gui/song_table/song_table.py:215-226 | in the batch view an unstageable status becomes NONE; in the list view NONE becomes STAGED; otherwise nothing changes |
| SongTable.DoubleClickIsMenuAction | src/usdb_syncer/gui/song_table/song_table.py:215-226 | a double-click does what unstage (batch view) or stage (list view) does |
| SongTable.FinishedSong | src/usdb_syncer/gui/song_table/song_table.py:235-245 | DONE with the new files when there are files, else FAILED with the old files |
| SongTable.FinishedLeavesQueue | src/usdb_syncer/gui/song_table/song_table.py:235-245 | a finished song can be unstaged, and it can be downloaded again iff it failed |
| SongTable.NotifiedRow | src/usdb_syncer/gui/song_table/song_table.py:228-237 | the row found by the falsy test is never row 0 |
| SongTable.IntendedRow | src/usdb_syncer/gui/song_table/song_table.py:228-237 | the row of the song iff the table holds it |
| SongTable.RowZeroIgnored | src/usdb_syncer/gui/song_table/song_table.py:228-237 | the falsy test differs from the intended lookup exactly when the song is in row 0 |
| SongTable.FirstSongEventsDropped | src/usdb_syncer/gui/song_table/song_table.py:228-245 | in a table holding one song, the falsy test drops that song's events while the intended lookup finds row 0 |
| SongTable.SongTable.constructor | src/usdb_syncer/gui/song_table/song_table.py:81-112 | an empty table, zero counters and nothing queued |
| SongTable.SongTable.Initialize | src/usdb_syncer/gui/song_table/song_table.py:114-115 | the table shows the given songs |
| SongTable.SongTable.ProcessRows | src/usdb_syncer/gui/song_table/song_table.py:142-148 | the loop reaches the state `Process` specifies, and the index is unchanged |
| SongTable.SongTable.DownloadRows | src/usdb_syncer/gui/song_table/song_table.py:123-140 | marks the qualifying rows PENDING; only when some row qualified does it start the progress for them and queue `Picks` of the rows: every qualifying row once, in row order |
| SongTable.SongTable.StageRows | src/usdb_syncer/gui/song_table/song_table.py:153-160 | moves NONE rows to STAGED and leaves the rest |
| SongTable.SongTable.UnstageRows | src/usdb_syncer/gui/song_table/song_table.py:162-178 | moves unstageable rows to NONE and leaves the rest |
| SongTable.SongTable.DoubleClick | src/usdb_syncer/gui/song_table/song_table.py:215-226 | changes the clicked row's status as `DoubleClicked` says, or nothing |
| SongTable.SongTable.OnDownloadStarted | src/usdb_syncer/gui/song_table/song_table.py:228-233 | the song's row becomes DOWNLOADING (found by the intended lookup); an unknown song changes nothing |
| SongTable.SongTable.OnDownloadFinished | src/usdb_syncer/gui/song_table/song_table.py:235-245 | the song's row, found by the intended lookup, is finished as `FinishedSong` says, and one progress unit is finished. An unknown song changes nothing |
| SearchItem.StatusVariantRules | src/usdb_syncer/gui/search_tree/item.py:278-295 | IN_PROGRESS matches PENDING or DOWNLOADING; FAILED matches FAILED; a song matching NONE matches none of the others |
| SearchItem.Matches | src/usdb_syncer/gui/search_tree/item.py:278-354 | an IN_PROGRESS match is a song that can be neither downloaded nor unstaged; a FAILED match can be both; an empty views interval matches nothing |
| SearchItem.RatingVariantsPartition | src/usdb_syncer/gui/search_tree/item.py:298-314 | the i-th rating variant matches iff the rating is i |
| SearchItem.GoldenNotesPartition | src/usdb_syncer/gui/search_tree/item.py:317-333 | exactly one golden-notes variant matches each song |
| SearchItem.ViewsVariantsPartition | src/usdb_syncer/gui/search_tree/item.py:336-354 | the intervals [0,100), …, [500,∞) partition the non-negative view counts, so exactly one variant matches |
| SearchItem.Label | src/usdb_syncer/gui/search_tree/item.py:308-311 | a rating variant's label is that many stars |
| SearchItem.StaticVariants | src/usdb_syncer/gui/search_tree/item.py:218-231 | the value filters (artist, title, edition, language) have no static variants; the others do |
| SearchItem.AcceptsSingle | src/usdb_syncer/gui/search_tree/item.py:120-123 | with one checked variant, a song is accepted iff it matches that variant |
| SearchItem.AcceptsWidens | src/usdb_syncer/gui/search_tree/item.py:120-123 | checking one more variant keeps every accepted song and adds the songs that variant matches |
| SearchItem.Accepts | src/usdb_syncer/gui/search_tree/item.py:120-123 | once some variant is checked, a song no checked variant matches is rejected |
| SearchItem.AllWordsInWeaker | src/usdb_syncer/gui/search_tree/item.py:181-182 | if every word of a query occurs in a text, then so does every word of a second query each of whose words is part of some word of the first |
| SearchItem.RootItem.constructor | src/usdb_syncer/gui/search_tree/item.py:87-92 | a root with no children |
| SearchItem.RootItem.AddChild | src/usdb_syncer/gui/search_tree/item.py:94-97 | the child is appended, and its parent and row point back |
| SearchItem.VariantItem.constructor | src/usdb_syncer/gui/search_tree/item.py:158-168 | the variant's search text is the fuzzed label |
| SearchItem.VariantItem.ToggleChecked | src/usdb_syncer/gui/search_tree/item.py:176-179 | through its parent the variant's check state flips and the parent stays consistent. Checking without keeping siblings leaves only this row checked; otherwise the row is added or removed. The changed items are the parent, this variant and, when the others are unchecked, the previously checked variants |
| SearchItem.VariantItem.AcceptsSong | src/usdb_syncer/gui/search_tree/item.py:170-171 | a value variant accepts only songs that carry its value in one of their text fields |
| SearchItem.VariantItem.FilterAcceptsRow | src/usdb_syncer/gui/search_tree/item.py:181-182 | an empty filter shows the variant, and a shown variant's label is at least as long as every word |
| SearchItem.FilterItem.constructor | src/usdb_syncer/gui/search_tree/item.py:101-107 | a new filter has no children and is unchecked |
| SearchItem.FilterItem.Variants | src/usdb_syncer/gui/search_tree/item.py:120-123 | the children's variants, in order |
| SearchItem.FilterItem.AcceptsSong | src/usdb_syncer/gui/search_tree/item.py:120-123 | for a consistent filter, a song is accepted iff the filter is unchecked or one of its checked variants accepts it |
| SearchItem.FilterItem.AddChild | src/usdb_syncer/gui/search_tree/item.py:109-112 | the child is appended with parent and row pointing back, and the check state is unchanged |
| SearchItem.FilterItem.SetChildren | src/usdb_syncer/gui/search_tree/item.py:114-118 | the children are replaced, and `children[i].parent == self` and `children[i].row_in_parent == i` hold for every i |
| SearchItem.FilterItem.UncheckChildren | src/usdb_syncer/gui/search_tree/item.py:131-137 | all children and the filter end up unchecked with no checked set; the changed items are the previously checked children and the filter |
| SearchItem.FilterItem.SetChildChecked | src/usdb_syncer/gui/search_tree/item.py:139-151 | checked without keeping siblings leaves exactly {child}; with `keep_siblings` the child is added; unchecking removes it and raises KeyError if absent. `checked == checkable == (set non-empty)` and each child's flag agrees with the set. The changed items are the filter, the child and, when siblings are unchecked, the previously checked children |
| SearchItem.FilterItem.ToggleChecked | src/usdb_syncer/gui/search_tree/item.py:128-129 | a checked filter unchecks everything; an unchecked one changes nothing |
| SearchModel.TreeModel.RowCount | src/usdb_syncer/gui/search_tree/model.py:49-53 | the root's child count for an invalid parent, a filter's child count, 0 for a variant |
| SearchModel.TreeModel.ColumnCount | src/usdb_syncer/gui/search_tree/model.py:55-56 | always 1 |
| SearchModel.TreeModel.Index | src/usdb_syncer/gui/search_tree/model.py:58-68 | an index exists iff the row is in range and the column is 0, and it points at that child |
| SearchModel.TreeModel.Parent | src/usdb_syncer/gui/search_tree/model.py:76-85 | invalid for top-level items; for a variant, the index of its filter at that filter's row |
| SearchModel.TreeModel.ParentOfIndex | src/usdb_syncer/gui/search_tree/model.py:58-85 | `parent(index(...))` gives back the parent the index was made from |
| SearchModel.TreeModel.SetVariantChecked | src/usdb_syncer/gui/search_tree/model.py:40-45 | checking a variant unchecks all its siblings; unchecking changes only the item. Only the `checked` flags of the item and its siblings can change |
| SearchModel.TreeModel.SetFilterChecked | src/usdb_syncer/gui/search_tree/model.py:40-45 | checking a filter unchecks all its siblings; unchecking changes only the item. Only the `checked` flags of the item and its siblings can change |
| SearchModel.Words | src/usdb_syncer/gui/search_tree/model.py:128-130 | `str.split()` yields non-empty words free of whitespace |
| SearchModel.WordsOfJoin | src/usdb_syncer/gui/search_tree/model.py:128-130 | splitting the space-joined words gives them back |
| SearchModel.WordsOccur | src/usdb_syncer/gui/search_tree/model.py:128-130 | every word occurs in the text it came from |
| SearchModel.PyIndex | src/usdb_syncer/gui/search_tree/model.py:121-126 | a Python index is valid iff it lies in -n..n-1; negative ones count from the end |
| SearchModel.TreeProxyModel.constructor | src/usdb_syncer/gui/search_tree/model.py:110-119 | the proxy starts with an empty filter |
| SearchModel.TreeProxyModel.FilterAcceptsRow | src/usdb_syncer/gui/search_tree/model.py:121-126 | an empty filter accepts every row, and so does an invalid parent. Below the root, a row is accepted iff its Python index is valid, else IndexError. Below a filter, the variant at that Python index decides, else IndexError. A variant parent raises |
| SearchModel.TreeProxyModel.SetFilter | src/usdb_syncer/gui/search_tree/model.py:128-130 | the filter is the whitespace-split words of the fuzzed text |
| SearchModel.OwnLabelShowsRow | src/usdb_syncer/gui/search_tree/model.py:121-130 | typing a variant's own label keeps that variant visible |
| SearchModel.ProxyShowsOwnLabel | src/usdb_syncer/gui/search_tree/model.py:121-130 | with a variant's own fuzzed label as the filter, the proxy accepts that variant's row |

## Left out

**Site and network.**
- HTTP, sessions, `SessionManager` and BeautifulSoup parsing. Pages, list rows, comment rows and song details are inputs. The scraper's HTML walkers (`_parse_song_page`, `_parse_details_table`, `_find_text_after`, `_all_urls_in_comment`) and `get_notes` are not modelled.
- `login_to_usdb`/`log_out_of_usdb`: `EstablishLogin` takes whether the site accepts the credentials as a parameter.

**Downloads and tags.**
- The resource downloaders and image processing are parameters. Each returns the extension or file name it stored, or nothing.
- Writing m4a, mp3 or ogg tags is not modelled. `TagStage` only decides whether a tag writer runs and marks the audio file as touched.

**The real filesystem.**
- Files, directories, `send2trash`, `tempfile` and `glob` are replaced by the abstract filesystem. The glob order is an input.
- Trashing a missing file does nothing.
- The folder rename is atomic, and a rename onto an existing file replaces it.
- Reading JSON files and txt files is a parameter: the decoded value, or the parsed headers.

**Concurrency and events.** `QThreadPool`/`QRunnable` scheduling, the database transactions and Qt signals are out. Events are an event log, and the database is a map from song id to stored song.

**Text.**
- `unidecode`, `unicodedata.normalize` and `str.lower` are the `normalize` parameter of `fuzz_text`.
- `extract_youtube_id` is a parameter of `ParseCommentContents`.
- The regexes `SONG_LIST_ROW_REGEX` and `WELCOME_REGEX` are not modelled. Their results are inputs.
- `resource_file_ending`'s regex is modelled directly.
- `\d` means ASCII digits.
- `str(song_id)` is the decimal text of the id (`Utils.IdText`). The `SongId` class of `usdb_syncer/__init__.py` is not part of this model: a song id is an integer, `SongId.parse` is taken to be `int`, and a stored song id is decoded with `int`.

**Numbers and time.** Floats are out: the `bpm`/`gap` parsing, the percentage and label text of `Progress._update`, and `strptime` for comment dates. Mtimes are opaque values compared only for equality.

**GUI glue.** Qt roles other than display and sort are out: the decoration icons, flags, `headerData`, `row_changed` notifications, `_setup_view`, the selection models and the debounce timer of `set_filter`.

**Other files.** `mw.py`, the dialogs, `media_player.py` and `generate_song_list_json.py` are not part of this model.

**Record shapes.** `song_loader.py` uses a record shape (`SyncMetaId`, `ResourceFile`, `pinned`, `path`) that `sync_meta.py` does not have. The pipeline's `SyncRecord` follows `song_loader.py`; `SyncMeta` follows `sync_meta.py`.

**`DownloadResult.files`.** `song_table.py` reads a `files` field that `song_data.DownloadResult` lacks. `OnDownloadFinished` takes the optional local files that `song_table.py` expects.

**Members with weaker contracts or narrower inputs.**
- SongTable.SongTable.ProcessRows: rows are required to be in range, as the selection views supply them. `DownloadRows`, `StageRows` and `UnstageRows` require the same. The `IndexError` a stale row would raise is not modelled.
- SongTable.SongTable.DoubleClick: the clicked row is required to be in range.
- SongTable.SongTable.OnDownloadStarted: uses the intended row lookup, not the as-written falsy test (see Findings).
- SongTable.SongTable.OnDownloadFinished: uses the intended row lookup too, not the as-written falsy test (see Findings).
- SearchItem.FilterItem.SetChildren: requires the new children to be distinct objects. It does not re-establish the check state, so `Valid` is left to the callers, which pass unchecked children.
- SearchItem.FilterItem.SetChildChecked: requires `child < len(children)`. Negative indices and the `IndexError` are not modelled.
- SearchItem.VariantItem.ToggleChecked: requires the parent to be consistent and to hold this item at its row, which `add_child`/`set_children` establish.
- SearchItem.FilterItem.UncheckChildren: the changed items are a set, so their order and duplicates are not modelled. The same holds for `SetChildChecked` and both `ToggleChecked` methods.
- SearchModel.TreeModel.SetVariantChecked: like the source, it keeps only the `checked` flags; the parent's `checked_children` is not updated. The same holds for `SetFilterChecked`.
- SearchItem.StatusVariantRules: the truthiness of `local_files.usdb_path` is modelled as presence.
- SongLoader.UnchangedResourcesFetchNothing: states idempotence of the download stages only. Idempotence of a whole second run is not stated.
- SongLoaderContext.Loader.Run: a failed run leaves the filesystem as it was before the run; the same holds for `Finish`. The files the source has already moved or trashed when an error ends the run are not tracked.
- JsonValues.IntOf: on strings it accepts only a non-empty run of ASCII digits. Python's `int` also accepts surrounding whitespace, a sign, underscores between digits and non-ASCII decimal digits. So a stored version of " 2" raises SyncMetaTooNewError in the source, while `TryFromFile` here gives None.
- Utils.ParseInt: accepts the same plain digit strings as `IntOf`, for the same reason.
- SyncMeta.TryFromFile: receives the file's text already decoded. The source opens the file before its `try`, so a missing or unreadable file raises out of `try_from_file`; that error is not modelled.
- SyncMeta.FromNestedDict: requires fname and resource to be strings and mtime an integer. attrs stores values of any type unchecked, so the source loads an entry with a wrongly typed field while this model rejects it with TypeError.
- UsdbSong.FromJson: requires text fields to be strings, golden_notes a boolean, and rating and views integers. attrs stores values of any type unchecked, so the source loads such a cached song while this model rejects it with TypeError.
- SongLoader.RunInner: the background failure message that reports the cover's resource is logging only, and logging is out.
- SongListFetcher.GetAvailableSongs: the top-level shape of the cache file is reduced to an optional list of song objects.

## Findings

| source | as written | input that shows it | evidently intended | confidence | as-written member | corrected member |
|---|---|---|---|---|---|---|
| src/usdb_syncer/gui/song_table/song_table.py:228-245 | `if not (row := self._model.rows.get(id))` treats row 0 like a missing song | a table whose first row holds the song being downloaded: its started and finished events are dropped, its status stays PENDING and the progress never completes | skip only a song the table does not hold (`row is None`) | not executed | SongTable.FirstSongEventsDropped | SongTable.IntendedRow |
