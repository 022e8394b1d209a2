/**
 * The decisions the USDB scraper takes around its HTTP requests and HTML parsing
 * (usdb_scraper.py). Responses and parsed HTML fragments are inputs.
 */
module UsdbScraper {
  import opened Wrappers
  import opened Utils
  import opened Constants
  import opened UsdbSong

  /** The exceptions the scraper raises or lets through. */
  datatype UsdbError =
    | ConnectionFailed   // requests.ConnectionError
    | HttpFailed         // raise_for_status
    | LoginRequired      // UsdbLoginError
    | NotFound           // UsdbNotFoundError
    | ParseFailed        // UsdbParseError
    | ValueFailed        // ValueError from a malformed number

  // ---------------------------------------------------------------------------
  // Song details and their comments

  datatype CommentContents = CommentContents(text: string, youtubeIds: seq<string>, urls: seq<string>)

  /** A comment; its date is kept as the text USDB shows. */
  datatype SongComment = SongComment(dateTime: string, author: string, contents: CommentContents)

  /** The details a song page shows; bpm, gap, dates, editors and the audio sample are
      not part of this model. */
  datatype SongDetails = SongDetails(
    songId: int,
    artist: string,
    title: string,
    coverUrl: Option<string>,
    goldenNotes: bool,
    views: int,
    rating: int,
    comments: seq<SongComment>)
  {
    /** `all_comment_videos`: for each comment in list order, its YouTube ids, then its URLs. */
    function AllCommentVideos(): (r: seq<string>)
      ensures forall v :: v in r <==> exists i :: 0 <= i < |comments| && InComment(comments[i], v)
    {
      CommentVideos(comments)
    }
  }

  /** Whether `v` is one of the videos a comment links. */
  predicate InComment(c: SongComment, v: string) {
    v in c.contents.youtubeIds || v in c.contents.urls
  }

  function CommentVideos(cs: seq<SongComment>): (r: seq<string>)
    ensures forall v :: v in r <==> exists i :: 0 <= i < |cs| && InComment(cs[i], v)
  {
    if cs == [] then []
    else
      var rest := CommentVideos(cs[1..]);
      assert forall v :: (exists i :: 0 <= i < |cs| && InComment(cs[i], v)) ==> (InComment(cs[0], v) || v in rest) by {
        forall v | exists i :: 0 <= i < |cs| && InComment(cs[i], v)
          ensures InComment(cs[0], v) || v in rest
        {
          var i :| 0 <= i < |cs| && InComment(cs[i], v);
          if i > 0 {
            assert cs[1..][i - 1] == cs[i];
          }
        }
      }
      cs[0].contents.youtubeIds + cs[0].contents.urls + rest
  }

  /** Videos of later comments come after those of earlier comments. */
  lemma {:induction false} CommentVideosConcat(a: seq<SongComment>, b: seq<SongComment>)
    ensures CommentVideos(a + b) == CommentVideos(a) + CommentVideos(b)
  {
    if a == [] {
      assert a + b == b;
    } else {
      assert (a + b)[1..] == a[1..] + b;
      CommentVideosConcat(a[1..], b);
    }
  }

  /** A single comment contributes its ids before its URLs. */
  lemma SingleCommentVideos(c: SongComment)
    ensures CommentVideos([c]) == c.contents.youtubeIds + c.contents.urls
  {
    assert [c][1..] == [];
  }

  /** `extract_youtube_id` finds a (non-empty) id in the URL. */
  predicate IsYoutubeUrl(u: string, extract: string -> Option<string>) {
    extract(u).Some? && extract(u).value != ""
  }

  /** The YouTube ids among `urls`, in order (`extract_youtube_id` is an input; an empty
      id counts as none). */
  function YoutubeIds(urls: seq<string>, extract: string -> Option<string>): (r: seq<string>)
    ensures |r| <= |urls|
    ensures forall k :: 0 <= k < |r| ==> r[k] != ""
  {
    if urls == [] then []
    else
      var init := YoutubeIds(urls[..|urls| - 1], extract);
      var id := extract(urls[|urls| - 1]);
      if id.Some? && id.value != "" then init + [id.value] else init
  }

  /** The URLs that are not YouTube links, in order. */
  function OtherUrls(urls: seq<string>, extract: string -> Option<string>): (r: seq<string>)
    ensures |r| <= |urls|
    ensures forall u :: u in r <==> u in urls && !IsYoutubeUrl(u, extract)
  {
    if urls == [] then []
    else
      var init := OtherUrls(urls[..|urls| - 1], extract);
      var u := urls[|urls| - 1];
      var id := extract(u);
      assert forall v :: v in urls <==> v in urls[..|urls| - 1] || v == u by {
        assert urls == urls[..|urls| - 1] + [u];
      }
      if id.Some? && id.value != "" then init else init + [u]
  }

  /** One URL goes to exactly one list: its id to the YouTube ids, or the URL itself to
      the other URLs. */
  lemma SingleUrlRouted(u: string, extract: string -> Option<string>)
    ensures IsYoutubeUrl(u, extract) ==> YoutubeIds([u], extract) == [extract(u).value] && OtherUrls([u], extract) == []
    ensures !IsYoutubeUrl(u, extract) ==> YoutubeIds([u], extract) == [] && OtherUrls([u], extract) == [u]
  {
    assert [u][..0] == [];
  }

  /** Both lists keep the order of the URLs: the URLs of a later part follow those of an
      earlier part. */
  lemma {:induction false} UrlListsConcat(a: seq<string>, b: seq<string>, extract: string -> Option<string>)
    ensures YoutubeIds(a + b, extract) == YoutubeIds(a, extract) + YoutubeIds(b, extract)
    ensures OtherUrls(a + b, extract) == OtherUrls(a, extract) + OtherUrls(b, extract)
    decreases |b|
  {
    if b == [] {
      assert a + b == a;
    } else {
      var init := b[..|b| - 1];
      assert (a + b)[..|a + b| - 1] == a + init;
      assert (a + b)[|a + b| - 1] == b[|b| - 1];
      UrlListsConcat(a, init, extract);
    }
  }

  /** Every URL of a comment lands in exactly one of the two lists: a YouTube URL's id is
      among the ids and the URL is not among the other URLs; any other URL is kept. */
  lemma {:induction false} UrlsPartitioned(urls: seq<string>, extract: string -> Option<string>)
    ensures |YoutubeIds(urls, extract)| + |OtherUrls(urls, extract)| == |urls|
    ensures forall u :: u in urls && IsYoutubeUrl(u, extract) ==> (
      extract(u).value in YoutubeIds(urls, extract) && u !in OtherUrls(urls, extract))
    ensures forall u :: u in urls && !IsYoutubeUrl(u, extract) ==> u in OtherUrls(urls, extract)
    ensures forall id :: id in YoutubeIds(urls, extract) ==> exists u :: u in urls && IsYoutubeUrl(u, extract) && extract(u).value == id
  {
    if urls != [] {
      var init := urls[..|urls| - 1];
      var last := urls[|urls| - 1];
      UrlsPartitioned(init, extract);
      assert urls == init + [last];
      forall u | u in urls && IsYoutubeUrl(u, extract)
        ensures extract(u).value in YoutubeIds(urls, extract)
      {
        if u != last {
          assert u in init;
        }
      }
      forall id | id in YoutubeIds(urls, extract)
        ensures exists u :: u in urls && IsYoutubeUrl(u, extract) && extract(u).value == id
      {
        if id in YoutubeIds(init, extract) {
          var u :| u in init && IsYoutubeUrl(u, extract) && extract(u).value == id;
          assert u in urls;
        } else {
          assert IsYoutubeUrl(last, extract) && extract(last).value == id;
        }
      }
    }
  }

  /** `_parse_comment_contents`: sorts the comment's URLs into YouTube ids and other URLs. */
  method ParseCommentContents(text: string, urls: seq<string>, extract: string -> Option<string>)
    returns (c: CommentContents)
    ensures c.text == text
    ensures c.youtubeIds == YoutubeIds(urls, extract)
    ensures c.urls == OtherUrls(urls, extract)
  {
    var ids: seq<string> := [];
    var others: seq<string> := [];
    for i := 0 to |urls|
      invariant ids == YoutubeIds(urls[..i], extract)
      invariant others == OtherUrls(urls[..i], extract)
    {
      assert urls[..i + 1][..i] == urls[..i];
      var id := extract(urls[i]);
      if id.Some? && id.value != "" {
        ids := ids + [id.value];
      } else {
        others := others + [urls[i]];
      }
    }
    assert urls[..|urls|] == urls;
    c := CommentContents(text, ids, others);
  }

  /** One row of the comments table: the header's text and the parsed comment below it. */
  datatype CommentRow = CommentRow(meta: string, contents: CommentContents)

  const MetaSeparator: string := " | "
  const EditPrefix: string := "[del] [edit] "

  /** `s.split(sep)` unpacked into exactly two parts; None when that raises. */
  function SplitPair(s: string, sep: string): (r: Option<(string, string)>)
    requires |sep| > 0
    ensures r.Some? ==> s == r.value.0 + sep + r.value.1
    ensures r.Some? ==> !Contains(r.value.1, sep)
    ensures !Contains(s, sep) ==> r.None?
  {
    match FirstMatch(s, sep, 0)
    case None => None
    case Some(i) =>
      var rest := s[i + |sep|..];
      if Contains(rest, sep) then None
      else
        assert s == s[..i] + sep + rest;
        Some((s[..i], rest))
  }

  /** The first index from `from` on where `sep` occurs. */
  function FirstMatch(s: string, sep: string, from: nat): (r: Option<nat>)
    ensures r.Some? ==> from <= r.value && MatchAt(s, sep, r.value)
    ensures r.None? ==> forall i :: from <= i <= |s| ==> !MatchAt(s, sep, i)
    decreases |s| + 1 - from
  {
    if from > |s| then None
    else if MatchAt(s, sep, from) then Some(from)
    else FirstMatch(s, sep, from + 1)
  }

  /** The comments of the rows up to the first header without " | ". */
  function CommentsFrom(rows: seq<CommentRow>): (r: Result<seq<SongComment>, UsdbError>)
    ensures r.Ok? ==> |r.value| <= |rows|
    ensures r.Ok? ==> forall i :: 0 <= i < |r.value| ==>
      Contains(rows[i].meta, MetaSeparator) && r.value[i].contents == rows[i].contents
    ensures r.Ok? && |r.value| < |rows| ==> !Contains(rows[|r.value|].meta, MetaSeparator)
    ensures r.Err? ==> r.error == ValueFailed
  {
    if rows == [] || !Contains(rows[0].meta, MetaSeparator) then Ok([])
    else
      match HeaderComment(rows[0])
      case None => Err(ValueFailed)
      case Some(c) =>
        var rest :- CommentsFrom(rows[1..]);
        Ok([c] + rest)
  }

  /** The comment a header row stands for: its text, without the moderation links, split
      into date and author; None when it does not split into exactly two parts. */
  function HeaderComment(row: CommentRow): (r: Option<SongComment>)
    ensures r.Some? ==> r.value.contents == row.contents
    ensures !Contains(row.meta, MetaSeparator) ==> r.None?
  {
    var meta := row.meta;
    var stripped := if StartsWith(meta, EditPrefix) then meta[|EditPrefix|..] else meta;
    assert Contains(stripped, MetaSeparator) ==> Contains(meta, MetaSeparator) by {
      if Contains(stripped, MetaSeparator) && StartsWith(meta, EditPrefix) {
        var k :| 0 <= k <= |stripped| && MatchAt(stripped, MetaSeparator, k);
        assert MatchAt(meta, MetaSeparator, k + |EditPrefix|);
      }
    }
    match SplitPair(stripped, MetaSeparator)
    case None => None
    case Some(parts) => Some(SongComment(parts.0, parts.1, row.contents))
  }

  /** `_parse_comments_table`: the last row is the form for a new comment and is never
      read; reading stops at the first header without " | ". A header whose text does
      not split into date and author raises a ValueError. */
  method ParseCommentsTable(rows: seq<CommentRow>) returns (r: Result<seq<SongComment>, UsdbError>)
    ensures r == CommentsFrom(if rows == [] then [] else rows[..|rows| - 1])
  {
    var candidates := if rows == [] then [] else rows[..|rows| - 1];
    var comments: seq<SongComment> := [];
    var i := 0;
    assert candidates[0..] == candidates;
    PrependNothing(CommentsFrom(candidates));
    while i < |candidates|
      invariant 0 <= i <= |candidates|
      invariant CommentsFrom(candidates) == Prepend(comments, CommentsFrom(candidates[i..]))
    {
      var row := candidates[i];
      ghost var rest := candidates[i..];
      assert rest[0] == row && rest[1..] == candidates[i + 1..];
      if !Contains(row.meta, MetaSeparator) {
        CommentsEnd(comments, rest);
        return Ok(comments);
      }
      var comment := HeaderComment(row);
      if comment.None? {
        CommentsFail(comments, rest);
        return Err(ValueFailed);
      }
      PrependStep(comments, comment.value, rest);
      comments := comments + [comment.value];
      i := i + 1;
    }
    CommentsExhausted(comments, candidates[i..]);
    return Ok(comments);
  }

  /** Nothing read yet: the table's outcome is that of the rows. */
  lemma PrependNothing<T>(r: Result<seq<T>, UsdbError>)
    ensures Prepend([], r) == r
  {
    if r.Ok? {
      assert [] + r.value == r.value;
    }
  }

  /** Once no rows are left, the comments read so far are the result. */
  lemma CommentsExhausted(comments: seq<SongComment>, rows: seq<CommentRow>)
    requires rows == []
    ensures Prepend(comments, CommentsFrom(rows)) == Ok(comments)
  {
    assert comments + [] == comments;
  }

  /** A header that does not split into date and author fails the whole table. */
  lemma CommentsFail(comments: seq<SongComment>, rows: seq<CommentRow>)
    requires rows != [] && Contains(rows[0].meta, MetaSeparator) && HeaderComment(rows[0]).None?
    ensures Prepend(comments, CommentsFrom(rows)) == Err(ValueFailed)
  {
  }

  /** Reading stops at a header without the separator, with the comments read so far. */
  lemma CommentsEnd(comments: seq<SongComment>, rows: seq<CommentRow>)
    requires rows != [] && !Contains(rows[0].meta, MetaSeparator)
    ensures Prepend(comments, CommentsFrom(rows)) == Ok(comments)
  {
    assert comments + [] == comments;
  }

  /** Reading one more comment moves it from the rest onto the comments read so far. */
  lemma PrependStep(comments: seq<SongComment>, c: SongComment, rows: seq<CommentRow>)
    requires rows != [] && Contains(rows[0].meta, MetaSeparator) && HeaderComment(rows[0]) == Some(c)
    ensures Prepend(comments, CommentsFrom(rows)) == Prepend(comments + [c], CommentsFrom(rows[1..]))
  {
    var rest := CommentsFrom(rows[1..]);
    if rest.Ok? {
      assert comments + ([c] + rest.value) == (comments + [c]) + rest.value;
    }
  }

  /** `xs` followed by the songs or comments of `r`, or the error of `r`. */
  function Prepend<T>(xs: seq<T>, r: Result<seq<T>, UsdbError>): Result<seq<T>, UsdbError> {
    if r.Ok? then Ok(xs + r.value) else r
  }

  // ---------------------------------------------------------------------------
  // Site language, page classification and retries

  /** `_usdb_strings_from_welcome`: the site language whose greeting this is. */
  function StringsFromWelcome(welcome: string): (r: Result<Language, UsdbError>)
    ensures r.Ok? <==> welcome in {"Welcome", "Willkommen", "Bienvenue"}
    ensures r.Ok? ==> StringsOf(r.value).welcome == welcome
    ensures r.Err? ==> r.error == ParseFailed
  {
    if welcome == StringsOf(English).welcome then Ok(English)
    else if welcome == StringsOf(German).welcome then Ok(German)
    else if welcome == StringsOf(French).welcome then Ok(French)
    else Err(ParseFailed)
  }

  /** Each language is recognised by its own greeting. */
  lemma WelcomeRoundTrip(lang: Language)
    ensures StringsFromWelcome(StringsOf(lang).welcome) == Ok(lang)
  {
  }

  /** `_usdb_strings_from_html`: the greeting the welcome regex finds, if any. */
  function StringsFromHtml(welcome: Option<string>): (r: Result<Language, UsdbError>)
    ensures welcome.None? ==> r == Err(ParseFailed)
  {
    if welcome.None? then Err(ParseFailed) else StringsFromWelcome(welcome.value)
  }

  /** The checks at the end of `_get_usdb_page_inner` on the normalised page text. */
  function ClassifyPage(page: string): (r: Result<string, UsdbError>)
    ensures r == Err(LoginRequired) <==> Contains(page, NotLoggedIn)
    ensures r == Err(NotFound) <==> !Contains(page, NotLoggedIn) && Contains(page, DatasetNotFound)
    ensures r.Ok? <==> !Contains(page, NotLoggedIn) && !Contains(page, DatasetNotFound)
    ensures r.Ok? ==> r.value == page
  {
    if Contains(page, NotLoggedIn) then Err(LoginRequired)
    else if Contains(page, DatasetNotFound) then Err(NotFound)
    else Ok(page)
  }

  /** What one request returns: a dropped connection, an HTTP error status or a page. */
  datatype Response = Dropped | ErrorStatus | Page(text: string)

  /** `_get_usdb_page_inner` for one response. */
  function Attempt(resp: Response): (r: Result<string, UsdbError>)
    ensures resp.Dropped? <==> r == Err(ConnectionFailed)
    ensures resp.ErrorStatus? <==> r == Err(HttpFailed)
    ensures resp.Page? ==> r == ClassifyPage(resp.text)
  {
    match resp
    case Dropped => Err(ConnectionFailed)
    case ErrorStatus => Err(HttpFailed)
    case Page(text) => ClassifyPage(text)
  }

  /** Whether `get_usdb_page` tries again after a first attempt that ended in `first`. */
  predicate Retries(first: Result<string, UsdbError>, customSession: bool, sessionExisted: bool)
    ensures Retries(first, customSession, sessionExisted) ==> first.Err? && first.error != NotFound
  {
    first == Err(ConnectionFailed) || (first == Err(LoginRequired) && !customSession && sessionExisted)
  }

  /** `get_usdb_page`: `respond(n)` is the response to the n-th request. It tries again
      once after a dropped connection, and after a login error only on the global session
      when that session existed before the call; before the second attempt the global
      session is reset (`reset`). */
  method GetUsdbPage(customSession: bool, sessionExisted: bool, respond: nat -> Response)
    returns (r: Result<string, UsdbError>, attempts: nat, reset: bool)
    ensures attempts == (if Retries(Attempt(respond(0)), customSession, sessionExisted) then 2 else 1)
    ensures attempts == 1 ==> r == Attempt(respond(0))
    ensures attempts == 2 ==> r == Attempt(respond(1))
    ensures reset <==> attempts == 2 && !customSession
  {
    r := Attempt(respond(0));
    attempts, reset := 1, false;
    if r.Ok? {
      return;
    }
    if r.error == LoginRequired {
      if customSession || !sessionExisted {
        return;
      }
    } else if r.error != ConnectionFailed {
      return;
    }
    if !customSession {
      reset := true;
    }
    r := Attempt(respond(1));
    attempts := 2;
  }

  /** A missing record is never asked for twice, and every call makes at most two requests. */
  lemma NotFoundIsFinal(customSession: bool, sessionExisted: bool, resp: Response)
    requires Attempt(resp) == Err(NotFound)
    ensures !Retries(Attempt(resp), customSession, sessionExisted)
  {
  }

  /** `establish_usdb_login`: an existing login is used as it is; otherwise credentials are
      posted only when both user and password are set, and `loginSucceeds` says whether
      the site accepted them. */
  datatype LoginOutcome = LoginOutcome(loggedIn: bool, posted: bool)

  function EstablishLogin(loggedInUser: Option<string>, user: string, password: string,
                          loginSucceeds: bool): (r: LoginOutcome)
    ensures loggedInUser.Some? && loggedInUser.value != "" ==> r == LoginOutcome(true, false)
    ensures r.posted <==> (loggedInUser.None? || loggedInUser.value == "") && user != "" && password != ""
    ensures r.loggedIn <==> (loggedInUser.Some? && loggedInUser.value != "") || (r.posted && loginSucceeds)
  {
    if loggedInUser.Some? && loggedInUser.value != "" then LoginOutcome(true, false)
    else if user != "" && password != "" then LoginOutcome(loginSucceeds, true)
    else LoginOutcome(false, false)
  }

  // ---------------------------------------------------------------------------
  // The song list

  /** One row the song-list regex matched: its eight groups. */
  datatype ListRow = ListRow(
    songId: string, artist: string, title: string, edition: string,
    goldenNotes: string, language: string, rating: string, views: string)

  /** A page of the song list: the greeting the welcome regex finds and the matched rows. */
  datatype ListPage = ListPage(welcome: Option<string>, rows: seq<ListRow>)

  /** The rows of a page whose id parses and lies above `maxSkipId`, in page order. */
  function KeptRows(rows: seq<ListRow>, maxSkipId: int): (r: seq<ListRow>)
    ensures forall k :: 0 <= k < |r| ==> ParseInt(r[k].songId).Some? && ParseInt(r[k].songId).value > maxSkipId
    ensures forall row :: row in rows && ParseInt(row.songId).Some? && ParseInt(row.songId).value > maxSkipId ==> row in r
    decreases |rows|
  {
    if rows == [] then []
    else
      var id := ParseInt(rows[0].songId);
      if id.Some? && id.value > maxSkipId then [rows[0]] + KeptRows(rows[1..], maxSkipId)
      else KeptRows(rows[1..], maxSkipId)
  }

  /** Every row's id parses, as `SongId.parse` demands of each row the filter looks at. */
  predicate IdsParse(rows: seq<ListRow>) {
    forall k :: 0 <= k < |rows| ==> ParseInt(rows[k].songId).Some?
  }

  /** `UsdbSong.from_html` on one kept row, after the site language is read from the page. */
  function RowSong(welcome: Option<string>, row: ListRow): (r: Result<UsdbSong, UsdbError>)
    ensures r.Ok? ==> Some(r.value.songId) == ParseInt(row.songId)
  {
    var lang :- StringsFromHtml(welcome);
    match FromHtml(StringsOf(lang), row.songId, row.artist, row.title,
                   row.language, row.edition, row.goldenNotes, row.rating, row.views)
    case Ok(s) => Ok(s)
    case Err(_) => Err(ValueFailed)
  }

  /** The songs of one page with an id above `maxSkipId`, in page order. The id is parsed
      before anything else; the site language is looked up only for a row that is kept. */
  function PageSongs(page: ListPage, maxSkipId: int): (r: Result<seq<UsdbSong>, UsdbError>)
    ensures r.Ok? ==> |r.value| <= |page.rows|
    ensures r.Ok? ==> forall s :: s in r.value ==> s.songId > maxSkipId
    decreases |page.rows|
  {
    if page.rows == [] then Ok([])
    else
      var row := page.rows[0];
      var rest := ListPage(page.welcome, page.rows[1..]);
      match ParseInt(row.songId)
      case None => Err(ValueFailed)
      case Some(id) =>
        if id <= maxSkipId then PageSongs(rest, maxSkipId)
        else
          var song :- RowSong(page.welcome, row);
          var others :- PageSongs(rest, maxSkipId);
          Ok([song] + others)
  }

  /** Every kept row makes a song. */
  predicate RowsMakeSongs(welcome: Option<string>, kept: seq<ListRow>) {
    forall k :: 0 <= k < |kept| ==> RowSong(welcome, kept[k]).Ok?
  }

  /** The songs are those the kept rows make, one per row, in order. */
  predicate SongsOfRows(welcome: Option<string>, kept: seq<ListRow>, songs: seq<UsdbSong>) {
    |songs| == |kept| && forall k :: 0 <= k < |songs| ==> RowSong(welcome, kept[k]) == Ok(songs[k])
  }

  lemma IdsParseCons(rows: seq<ListRow>)
    requires rows != []
    ensures IdsParse(rows) <==> ParseInt(rows[0].songId).Some? && IdsParse(rows[1..])
  {
    if ParseInt(rows[0].songId).Some? && IdsParse(rows[1..]) {
      forall k | 0 < k < |rows| ensures ParseInt(rows[k].songId).Some? {
        assert rows[k] == rows[1..][k - 1];
      }
    }
  }

  lemma RowsMakeSongsCons(welcome: Option<string>, row: ListRow, kept: seq<ListRow>)
    ensures RowsMakeSongs(welcome, [row] + kept) <==> RowSong(welcome, row).Ok? && RowsMakeSongs(welcome, kept)
  {
    AllCons(r => RowSong(welcome, r).Ok?, row, kept);
  }

  /** A property holds for every element of `[x] + xs` iff it holds for `x` and every element of `xs`. */
  lemma AllCons<T>(p: T -> bool, x: T, xs: seq<T>)
    ensures (forall k :: 0 <= k < |[x] + xs| ==> p(([x] + xs)[k])) <==> p(x) && forall k :: 0 <= k < |xs| ==> p(xs[k])
  {
    var all := [x] + xs;
    assert all[0] == x;
    if forall k :: 0 <= k < |all| ==> p(all[k]) {
      forall k | 0 <= k < |xs| ensures p(xs[k]) {
        assert xs[k] == all[k + 1];
      }
    }
  }

  lemma SongsOfRowsCons(welcome: Option<string>, row: ListRow, kept: seq<ListRow>, song: UsdbSong, songs: seq<UsdbSong>)
    requires RowSong(welcome, row) == Ok(song) && SongsOfRows(welcome, kept, songs)
    ensures SongsOfRows(welcome, [row] + kept, [song] + songs)
  {
  }

  /** A page succeeds exactly when every id parses and every kept row makes a song, and
      then it holds one song per kept row, in page order: nothing above the skip id is
      dropped and nothing at or below it is kept. */
  lemma {:induction false} PageSongsSpec(page: ListPage, maxSkipId: int)
    ensures PageSongs(page, maxSkipId).Ok? <==> (
      IdsParse(page.rows) && RowsMakeSongs(page.welcome, KeptRows(page.rows, maxSkipId)))
    ensures PageSongs(page, maxSkipId).Ok? ==> (
      SongsOfRows(page.welcome, KeptRows(page.rows, maxSkipId), PageSongs(page, maxSkipId).value))
    decreases |page.rows|
  {
    if page.rows != [] {
      var row := page.rows[0];
      var rest := ListPage(page.welcome, page.rows[1..]);
      PageSongsSpec(rest, maxSkipId);
      IdsParseCons(page.rows);
      if ParseInt(row.songId).Some? && ParseInt(row.songId).value > maxSkipId {
        RowsMakeSongsCons(page.welcome, row, KeptRows(rest.rows, maxSkipId));
        if RowSong(page.welcome, row).Ok? && PageSongs(rest, maxSkipId).Ok? {
          SongsOfRowsCons(page.welcome, row, KeptRows(rest.rows, maxSkipId),
                          RowSong(page.welcome, row).value, PageSongs(rest, maxSkipId).value);
        }
      }
    }
  }

  /** The songs of the pages from `start` on, as `get_usdb_available_songs` collects them:
      a page with fewer than a full page of new songs is the last one read. */
  function AvailableFrom(start: nat, maxSkipId: int, fetch: nat -> Result<ListPage, UsdbError>)
    : (r: Result<seq<UsdbSong>, UsdbError>)
    ensures r.Ok? ==> forall s :: s in r.value ==> s.songId > maxSkipId
    decreases MaxSongId - start
  {
    if start >= MaxSongId then Ok([])
    else
      var page :- fetch(start);
      var songs :- PageSongs(page, maxSkipId);
      if |songs| < MaxSongsPerPage then Ok(songs)
      else
        var rest :- AvailableFrom(start + MaxSongsPerPage, maxSkipId, fetch);
        Ok(songs + rest)
  }

  /** A full page of new songs from `start` on. */
  predicate FullPageAt(start: nat, maxSkipId: int, fetch: nat -> Result<ListPage, UsdbError>) {
    fetch(start).Ok? && PageSongs(fetch(start).value, maxSkipId).Ok?
    && |PageSongs(fetch(start).value, maxSkipId).value| >= MaxSongsPerPage
  }

  /** One page of the listing: what the songs gathered so far become after the page at `start`. */
  lemma {:induction false} AvailableStep(available: seq<UsdbSong>, start: nat, maxSkipId: int,
                                         fetch: nat -> Result<ListPage, UsdbError>)
    requires start < MaxSongId
    ensures fetch(start).Err? ==>
      Prepend(available, AvailableFrom(start, maxSkipId, fetch)) == Err(fetch(start).error)
    ensures fetch(start).Ok? && PageSongs(fetch(start).value, maxSkipId).Err? ==>
      Prepend(available, AvailableFrom(start, maxSkipId, fetch))
      == Err(PageSongs(fetch(start).value, maxSkipId).error)
    ensures fetch(start).Ok? && PageSongs(fetch(start).value, maxSkipId).Ok? ==>
      var songs := PageSongs(fetch(start).value, maxSkipId).value;
      if |songs| < MaxSongsPerPage then
        Prepend(available, AvailableFrom(start, maxSkipId, fetch)) == Ok(available + songs)
      else
        Prepend(available, AvailableFrom(start, maxSkipId, fetch))
        == Prepend(available + songs, AvailableFrom(start + MaxSongsPerPage, maxSkipId, fetch))
  {
    if fetch(start).Ok? && PageSongs(fetch(start).value, maxSkipId).Ok? {
      var songs := PageSongs(fetch(start).value, maxSkipId).value;
      var next := AvailableFrom(start + MaxSongsPerPage, maxSkipId, fetch);
      if |songs| >= MaxSongsPerPage && next.Ok? {
        assert available + (songs + next.value) == (available + songs) + next.value;
      }
    }
  }

  /** The pages start at multiples of the page size, so one that starts below the largest
      song id ends at or below it. */
  lemma NextPageFits(n: nat)
    requires n * MaxSongsPerPage < MaxSongId
    ensures (n + 1) * MaxSongsPerPage <= MaxSongId && n + 1 <= MaxSongId / MaxSongsPerPage
  {
  }

  /** `get_usdb_available_songs`: `fetch(start)` is the list page from `start`, parsed.
      It requests the pages 0, 100, 200, ... below the largest song id, in that order,
      and reads on only after a page that yielded a full page of new songs. */
  method GetUsdbAvailableSongs(maxSkipId: int, fetch: nat -> Result<ListPage, UsdbError>)
    returns (r: Result<seq<UsdbSong>, UsdbError>, requested: seq<nat>)
    ensures r == AvailableFrom(0, maxSkipId, fetch)
    ensures r.Ok? ==> forall s :: s in r.value ==> s.songId > maxSkipId
    ensures 0 < |requested| <= MaxSongId / MaxSongsPerPage
    ensures forall i :: 0 <= i < |requested| ==> requested[i] == i * MaxSongsPerPage
    ensures forall i :: 0 <= i < |requested| - 1 ==> FullPageAt(requested[i], maxSkipId, fetch)
  {
    var available: seq<UsdbSong> := [];
    var start: nat := 0;
    requested := [];
    assert Prepend(available, AvailableFrom(0, maxSkipId, fetch)) == AvailableFrom(0, maxSkipId, fetch) by {
      if AvailableFrom(0, maxSkipId, fetch).Ok? {
        assert [] + AvailableFrom(0, maxSkipId, fetch).value == AvailableFrom(0, maxSkipId, fetch).value;
      }
    }
    while start < MaxSongId
      invariant start == |requested| * MaxSongsPerPage <= MaxSongId
      invariant forall i :: 0 <= i < |requested| ==> requested[i] == i * MaxSongsPerPage
      invariant forall i :: 0 <= i < |requested| ==> FullPageAt(requested[i], maxSkipId, fetch)
      invariant AvailableFrom(0, maxSkipId, fetch) == Prepend(available, AvailableFrom(start, maxSkipId, fetch))
      decreases MaxSongId - start
    {
      NextPageFits(|requested|);
      requested := requested + [start];
      AvailableStep(available, start, maxSkipId, fetch);
      var page := fetch(start);
      if page.Err? {
        return Err(page.error), requested;
      }
      var songs := PageSongs(page.value, maxSkipId);
      if songs.Err? {
        return Err(songs.error), requested;
      }
      available := available + songs.value;
      if |songs.value| < MaxSongsPerPage {
        return Ok(available), requested;
      }
      start := start + MaxSongsPerPage;
    }
    assert requested != [] by {
      assert start == MaxSongId;
    }
    assert available + [] == available;
    return Ok(available), requested;
  }
}
