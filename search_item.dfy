/**
 * The rows of the filter tree (gui/search_tree/item.py): the variants a song can be
 * matched against, and the root, filter and variant items with their check state.
 */
module SearchItem {
  import opened Wrappers
  import opened Utils
  import opened UsdbSong
  import opened SongData

  // ---------------------------------------------------------------------------
  // Matching songs

  /** The song field a `SongValueMatch` compares with; the base class compares the
      artist, as `SongArtistMatch` does. */
  datatype ValueField = Artist | Title | Edition | Language

  /** `StatusVariant`. */
  datatype StatusVariant = NotDownloaded | Downloaded | InProgress | DownloadFailed

  /** Everything a variant row can match a song against: a value with its song count,
      a status, a rating (`None` is the variant R_NONE), golden notes, or a views
      interval `[low, high)` whose `high` of None means unbounded. */
  datatype SongMatch =
    | ValueMatch(field: ValueField, val: string, count: int)
    | StatusMatch(status: StatusVariant)
    | RatingMatch(rating: Option<int>)
    | GoldenNotesMatch(yes: bool)
    | ViewsMatch(low: int, high: Option<int>)

  /** `matches_song` of each kind of variant. A song has a record file exactly when its
      `usdb_path` is set; a set path is always truthy. */
  predicate Matches(m: SongMatch, song: SongData)
    ensures m == StatusMatch(InProgress) && Matches(m, song) ==>
      !CanBeDownloaded(song.status) && !CanBeUnstaged(song.status)
    ensures m == StatusMatch(DownloadFailed) && Matches(m, song) ==>
      CanBeDownloaded(song.status) && CanBeUnstaged(song.status)
    ensures m.ViewsMatch? && m.high.Some? && m.high.value <= m.low ==> !Matches(m, song)
  {
    match m
    case ValueMatch(field, val, _) =>
      (match field
       case Artist => val == song.data.artist
       case Title => val == song.data.title
       case Edition => val == song.data.edition
       case Language => val == song.data.language)
    case StatusMatch(s) =>
      (match s
       case NotDownloaded => song.localFiles.usdbPath.None? && song.status == NoStatus
       case Downloaded => song.localFiles.usdbPath.Some?
       case InProgress => song.status == Pending || song.status == Downloading
       case DownloadFailed => song.status == Failed)
    case RatingMatch(r) => (if r.Some? then r.value else 0) == song.data.rating
    case GoldenNotesMatch(yes) => yes == song.data.goldenNotes
    case ViewsMatch(low, high) => low <= song.data.views && (high.None? || song.data.views < high.value)
  }

  const StatusVariants: seq<SongMatch> :=
    [StatusMatch(NotDownloaded), StatusMatch(Downloaded), StatusMatch(InProgress), StatusMatch(DownloadFailed)]

  const RatingVariants: seq<SongMatch> :=
    [RatingMatch(None), RatingMatch(Some(1)), RatingMatch(Some(2)), RatingMatch(Some(3)),
     RatingMatch(Some(4)), RatingMatch(Some(5))]

  const GoldenNotesVariants: seq<SongMatch> := [GoldenNotesMatch(false), GoldenNotesMatch(true)]

  const ViewsVariants: seq<SongMatch> :=
    [ViewsMatch(0, Some(100)), ViewsMatch(100, Some(200)), ViewsMatch(200, Some(300)),
     ViewsMatch(300, Some(400)), ViewsMatch(400, Some(500)), ViewsMatch(500, None)]

  /** The status variants: IN_PROGRESS is PENDING or DOWNLOADING, FAILED is FAILED, and a
      song that matches NONE (no record file, no status) matches none of the other three. */
  lemma StatusVariantRules(song: SongData)
    ensures Matches(StatusMatch(InProgress), song) <==> song.status in {Pending, Downloading}
    ensures Matches(StatusMatch(DownloadFailed), song) <==> song.status == Failed
    ensures Matches(StatusMatch(NotDownloaded), song) ==> (
      !Matches(StatusMatch(Downloaded), song) && !Matches(StatusMatch(InProgress), song)
      && !Matches(StatusMatch(DownloadFailed), song))
  {
  }

  /** A rating variant matches when the rating equals its value, R_NONE standing for 0;
      a rating from 0 to 5 matches exactly one variant, any other rating none. */
  lemma RatingVariantsPartition(song: SongData)
    ensures forall i :: 0 <= i < |RatingVariants| ==> (
      Matches(RatingVariants[i], song) <==> song.data.rating == i)
    ensures 0 <= song.data.rating <= 5 ==> Matches(RatingVariants[song.data.rating], song)
  {
  }

  /** Every song matches exactly one golden-notes variant. */
  lemma GoldenNotesPartition(song: SongData)
    ensures Matches(GoldenNotesVariants[0], song) != Matches(GoldenNotesVariants[1], song)
  {
  }

  /** The index of the views interval `[100 i, 100 (i + 1))`, the last one unbounded. */
  function ViewsBucket(views: nat): (r: nat)
    ensures r < |ViewsVariants|
  {
    if views >= 500 then 5 else views / 100
  }

  /** The views intervals partition the non-negative view counts: each count lies in
      exactly the interval `ViewsBucket` names, and a negative count lies in none. */
  lemma {:induction false} ViewsVariantsPartition(song: SongData)
    ensures song.data.views >= 0 ==> forall i :: 0 <= i < |ViewsVariants| ==> (
      Matches(ViewsVariants[i], song) <==> i == ViewsBucket(song.data.views))
    ensures song.data.views < 0 ==> forall i :: 0 <= i < |ViewsVariants| ==> !Matches(ViewsVariants[i], song)
  {
    var v := song.data.views;
    if v >= 0 {
      var b := ViewsBucket(v);
      assert b < 5 ==> 100 * b <= v < 100 * (b + 1);
    }
  }

  // ---------------------------------------------------------------------------
  // Labels

  function IntText(n: int): string {
    if n >= 0 then NatToString(n) else "-" + NatToString(-n)
  }

  /** `str` of a variant, the text shown in the tree and searched by the filter box. */
  function Label(m: SongMatch): (r: string)
    ensures m.RatingMatch? && m.rating.Some? && m.rating.value >= 0 ==> (
      |r| == m.rating.value && forall i :: 0 <= i < |r| ==> r[i] == '★')
  {
    match m
    case ValueMatch(_, val, count) => val + " [" + IntText(count) + "]"
    case StatusMatch(s) =>
      (match s
       case NotDownloaded => "Not downloaded"
       case Downloaded => "Downloaded"
       case InProgress => "In progress"
       case DownloadFailed => "Download failed")
    case RatingMatch(r) =>
      if r.None? then "None" else seq(if r.value < 0 then 0 else r.value, _ => '★')
    case GoldenNotesMatch(yes) => if yes then "Yes" else "No"
    case ViewsMatch(low, high) =>
      if high.None? then IntText(low) + "+" else IntText(low) + " to " + IntText(high.value - 1)
  }

  /** `Filter`: the kinds of filters, the top-level rows of the tree. */
  datatype Filter = Status | ArtistFilter | TitleFilter | EditionFilter | LanguageFilter
                  | GoldenNotes | Rating | Views

  /** `Filter.static_variants`: the fixed variants of a filter; the value filters get
      theirs from the songs. */
  function StaticVariants(f: Filter): (r: seq<SongMatch>)
    ensures f in {ArtistFilter, TitleFilter, EditionFilter, LanguageFilter} <==> r == []
  {
    match f
    case ArtistFilter | TitleFilter | EditionFilter | LanguageFilter => []
    case Status => StatusVariants
    case GoldenNotes => GoldenNotesVariants
    case Rating => RatingVariants
    case Views => ViewsVariants
  }

  // ---------------------------------------------------------------------------
  // Which songs a filter accepts

  /** `FilterItem.accepts_song` over the variants and the rows that are checked: a filter
      with nothing checked accepts every song, otherwise a song some checked variant
      matches. */
  predicate Accepts(variants: seq<SongMatch>, checkedRows: set<int>, song: SongData)
    ensures checkedRows != {} && (forall i :: i in checkedRows && 0 <= i < |variants| ==> !Matches(variants[i], song))
      ==> !Accepts(variants, checkedRows, song)
  {
    checkedRows == {}
    || exists i :: i in checkedRows && 0 <= i < |variants| && Matches(variants[i], song)
  }

  /** With one variant checked, the filter accepts exactly the songs it matches. */
  lemma AcceptsSingle(variants: seq<SongMatch>, c: nat, song: SongData)
    requires c < |variants|
    ensures Accepts(variants, {c}, song) <==> Matches(variants[c], song)
  {
  }

  /** Checking one more variant next to others (keeping the siblings) only lets more songs
      through, and what the new variant matches is among them. */
  lemma {:induction false} AcceptsWidens(variants: seq<SongMatch>, checkedRows: set<int>, c: nat, song: SongData)
    requires checkedRows != {} && c < |variants|
    ensures Accepts(variants, checkedRows, song) ==> Accepts(variants, checkedRows + {c}, song)
    ensures Matches(variants[c], song) ==> Accepts(variants, checkedRows + {c}, song)
  {
    if Accepts(variants, checkedRows, song) {
      var i :| i in checkedRows && 0 <= i < |variants| && Matches(variants[i], song);
      assert i in checkedRows + {c};
    }
    if Matches(variants[c], song) {
      assert c in checkedRows + {c};
    }
  }

  /** `VariantItem.filter_accepts_row`: every word of the filter occurs in the label. */
  predicate AllWordsIn(words: seq<string>, text: string) {
    forall k :: 0 <= k < |words| ==> Contains(text, words[k])
  }

  /** A variant shown for a filter is still shown for any part of it: dropping words or
      shortening them never hides a row. */
  lemma {:induction false} AllWordsInWeaker(words: seq<string>, fewer: seq<string>, text: string)
    requires AllWordsIn(words, text)
    requires forall j :: 0 <= j < |fewer| ==> exists k :: 0 <= k < |words| && Contains(words[k], fewer[j])
    ensures AllWordsIn(fewer, text)
  {
    forall j | 0 <= j < |fewer|
      ensures Contains(text, fewer[j])
    {
      var k :| 0 <= k < |words| && Contains(words[k], fewer[j]);
      ContainsTransitive(text, words[k], fewer[j]);
    }
  }

  // ---------------------------------------------------------------------------
  // The items

  /** `RootItem`: the invisible root whose children are the filter rows. */
  class RootItem {
    var children: seq<FilterItem>

    /** Each filter row knows this root as its parent and its own row. */
    predicate Valid()
      reads this, children
    {
      forall i :: 0 <= i < |children| ==> children[i].parent == this && children[i].rowInParent == i
    }

    constructor ()
      ensures Valid() && children == []
    {
      children := [];
    }

    /** `add_child`: appends the filter row and makes this its parent at the new row. */
    method AddChild(child: FilterItem)
      modifies this, child
      ensures children == old(children) + [child]
      ensures child.parent == this && child.rowInParent == |old(children)|
      ensures old(Valid()) && child !in old(children) ==> Valid()
    {
      child.parent := this;
      child.rowInParent := |children|;
      children := children + [child];
    }
  }

  /** `VariantItem`: one variant row below a filter row. Its label is fuzzed once, when
      the item is made. */
  class VariantItem {
    const data: SongMatch
    const fuzzyText: string
    var parent: FilterItem?
    var rowInParent: int
    var checked: bool

    constructor (data: SongMatch, parent: FilterItem?, normalize: string -> string)
      ensures this.data == data && fuzzyText == Fuzzed(Label(data), normalize)
      ensures this.parent == parent && rowInParent == 0 && !checked
    {
      this.data := data;
      this.parent := parent;
      fuzzyText := Fuzzed(Label(data), normalize);
      rowInParent := 0;
      checked := false;
    }

    /** `accepts_song`. */
    predicate AcceptsSong(song: SongData)
      ensures data.ValueMatch? && AcceptsSong(song) ==>
        data.val in {song.data.artist, song.data.title, song.data.edition, song.data.language}
    {
      Matches(data, song)
    }

    /** `filter_accepts_row`. */
    predicate FilterAcceptsRow(words: seq<string>)
      ensures words == [] ==> FilterAcceptsRow(words)
      ensures FilterAcceptsRow(words) ==> forall k :: 0 <= k < |words| ==> |words[k]| <= |fuzzyText|
    {
      AllWordsIn(words, fuzzyText)
    }

    /** `toggle_checked`: asks the filter row to flip this variant. Through the parent
        the removal can never miss, since the variant is checked exactly when its row
        is in the parent's checked set. */
    method ToggleChecked(keepSiblings: bool) returns (changed: set<object>)
      requires parent != null && parent.Valid()
      requires 0 <= rowInParent < |parent.children| && parent.children[rowInParent] == this
      modifies parent, parent.children
      ensures parent == old(parent) && parent.children == old(parent.children) && parent.Valid()
      ensures checked == !old(checked)
      ensures checked && !keepSiblings ==> parent.checkedChildren == {rowInParent}
      ensures checked && keepSiblings ==> parent.checkedChildren == old(parent.checkedChildren) + {rowInParent}
      ensures !checked ==> parent.checkedChildren == old(parent.checkedChildren) - {rowInParent}
      ensures checked && !keepSiblings ==> changed == {parent, this as object} + parent.CheckedRows(old(parent.checkedChildren))
      ensures !(checked && !keepSiblings) ==> changed == {parent, this}
    {
      var p := parent;
      var row := rowInParent;
      var ok;
      changed, ok := p.SetChildChecked(row, !checked, keepSiblings);
    }
  }

  /** `FilterItem`: a filter row, its variant rows and the set of checked rows. */
  class FilterItem {
    const data: Filter
    var parent: RootItem?
    var rowInParent: int
    var children: seq<VariantItem>
    var checkedChildren: set<int>
    var checked: bool
    var checkable: bool

    /** The check-state invariant: every variant row knows this filter and its row, a
        variant is checked exactly when its row is in `checkedChildren`, and the filter is
        checked and checkable exactly when some variant is. */
    predicate Valid()
      reads this, children
    {
      (forall i :: 0 <= i < |children| ==> (
        children[i].parent == this && children[i].rowInParent == i
        && (children[i].checked <==> i in checkedChildren)))
      && (forall i :: i in checkedChildren ==> 0 <= i < |children|)
      && checked == checkable == (checkedChildren != {})
    }

    constructor (data: Filter, parent: RootItem?)
      ensures Valid() && this.data == data && this.parent == parent && rowInParent == 0
      ensures children == [] && checkedChildren == {} && !checked && !checkable
    {
      this.data := data;
      this.parent := parent;
      rowInParent := 0;
      children := [];
      checkedChildren := {};
      checked := false;
      checkable := false;
    }

    function Variants(): (r: seq<SongMatch>)
      reads this, children
      ensures |r| == |children| && forall i :: 0 <= i < |r| ==> r[i] == children[i].data
    {
      seq(|children|, i requires 0 <= i < |children| reads this, children => children[i].data)
    }

    /** The variant rows at the given row numbers, as the items a change reports. */
    function CheckedRows(rows: set<int>): set<object>
      reads this
    {
      set i | i in rows && 0 <= i < |children| :: children[i] as object
    }

    /** `accepts_song`. */
    predicate AcceptsSong(song: SongData)
      reads this, children
      ensures Valid() ==> (AcceptsSong(song) <==>
        !checked || exists i :: 0 <= i < |children| && children[i].checked && children[i].AcceptsSong(song))
    {
      Accepts(Variants(), checkedChildren, song)
    }

    /** `add_child`: appends the variant row and makes this its parent at the new row. */
    method AddChild(child: VariantItem)
      modifies this, child
      ensures children == old(children) + [child]
      ensures child.parent == this && child.rowInParent == |old(children)|
      ensures checkedChildren == old(checkedChildren) && checked == old(checked) && checkable == old(checkable)
      ensures old(Valid()) && child !in old(children) && !old(child.checked) ==> Valid()
    {
      child.parent := this;
      child.rowInParent := |children|;
      children := children + [child];
    }

    /** `set_children`: replaces the variant rows, each learning this parent and its row.
        The checked set is left as it was. */
    method SetChildren(newChildren: seq<VariantItem>)
      requires forall i, j :: 0 <= i < j < |newChildren| ==> newChildren[i] != newChildren[j]
      modifies this, newChildren
      ensures children == newChildren
      ensures forall i :: 0 <= i < |children| ==> children[i].parent == this && children[i].rowInParent == i
      ensures checkedChildren == old(checkedChildren) && checked == old(checked) && checkable == old(checkable)
      ensures forall i :: 0 <= i < |newChildren| ==> newChildren[i].checked == old(newChildren[i].checked)
      ensures (old(checkedChildren) == {} && !old(checked) && !old(checkable)
        && forall i :: 0 <= i < |newChildren| ==> !old(newChildren[i].checked)) ==> Valid()
    {
      children := newChildren;
      for row := 0 to |children|
        invariant children == newChildren
        invariant checkedChildren == old(checkedChildren) && checked == old(checked) && checkable == old(checkable)
        invariant forall i :: 0 <= i < row ==> children[i].parent == this && children[i].rowInParent == i
        invariant forall i :: 0 <= i < |newChildren| ==> newChildren[i].checked == old(newChildren[i].checked)
      {
        children[row].parent := this;
        children[row].rowInParent := row;
      }
    }

    /** `uncheck_children`: unchecks every checked variant and the filter itself, and
        reports those variants and the filter as changed. */
    method UncheckChildren() returns (changed: set<object>)
      requires Valid()
      modifies this, children
      ensures Valid() && children == old(children) && parent == old(parent) && rowInParent == old(rowInParent)
      ensures checkedChildren == {} && !checked && !checkable
      ensures forall i :: 0 <= i < |children| ==> !children[i].checked
      ensures changed == CheckedRows(old(checkedChildren)) + {this}
    {
      var todo := checkedChildren;
      changed := CheckedRows(checkedChildren) + {this};
      while todo != {}
        invariant children == old(children) && parent == old(parent) && rowInParent == old(rowInParent)
        invariant todo <= old(checkedChildren) && checkedChildren == old(checkedChildren)
        invariant forall i :: i in todo ==> 0 <= i < |children|
        invariant forall i :: 0 <= i < |children| ==> (
          children[i].parent == this && children[i].rowInParent == i
          && (children[i].checked <==> i in todo))
        decreases |todo|
      {
        var i :| i in todo;
        children[i].checked := false;
        todo := todo - {i};
      }
      checkedChildren := {};
      checkable := false;
      checked := false;
    }

    /** `set_child_checked`: checks or unchecks the variant in row `child`. Checking
        without keeping the siblings unchecks them first; unchecking a row that is not
        checked raises a KeyError (`ok` false) before anything changes. */
    method SetChildChecked(child: nat, checked: bool, keepSiblings: bool) returns (changed: set<object>, ok: bool)
      requires Valid() && child < |children|
      modifies this, children
      ensures Valid() && children == old(children) && parent == old(parent) && rowInParent == old(rowInParent)
      ensures ok <==> checked || child in old(checkedChildren)
      ensures !ok ==> checkedChildren == old(checkedChildren) && forall i :: 0 <= i < |children| ==> children[i].checked == old(children[i].checked)
      ensures ok && checked && !keepSiblings ==> checkedChildren == {child}
      ensures ok && checked && keepSiblings ==> checkedChildren == old(checkedChildren) + {child}
      ensures ok && !checked ==> checkedChildren == old(checkedChildren) - {child}
      ensures ok && checked && !keepSiblings ==> changed == {this, children[child] as object} + CheckedRows(old(checkedChildren))
      ensures ok && !(checked && !keepSiblings) ==> changed == {this, children[child]}
    {
      changed := {this, children[child]};
      if checked {
        if !keepSiblings {
          var more := UncheckChildren();
          changed := changed + more;
        }
        checkedChildren := checkedChildren + {child};
      } else {
        if child !in checkedChildren {
          return changed, false;
        }
        checkedChildren := checkedChildren - {child};
      }
      children[child].checked := checked;
      this.checked := checkedChildren != {};
      checkable := this.checked;
      ok := true;
    }

    /** `toggle_checked` on a filter row: unchecks everything when it is checked and
        does nothing otherwise. */
    method ToggleChecked() returns (changed: set<object>)
      requires Valid()
      modifies this, children
      ensures Valid() && children == old(children)
      ensures old(checked) ==> checkedChildren == {} && changed == CheckedRows(old(checkedChildren)) + {this}
      ensures !old(checked) ==> checkedChildren == old(checkedChildren) == {} && changed == {}
    {
      if checked {
        changed := UncheckChildren();
      } else {
        changed := {};
      }
    }
  }
}
