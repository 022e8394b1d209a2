/**
 * The filter tree's Qt models (gui/search_tree/model.py): the item model over the root,
 * filter and variant items, and the proxy that hides variant rows by typed words.
 */
module SearchModel {
  import opened Wrappers
  import opened Utils
  import opened SongData
  import opened SearchItem

  // ---------------------------------------------------------------------------
  // Items and indices

  /** The item a model index points to. */
  datatype Item = RootRow(root: RootItem) | FilterRow(filter: FilterItem) | VariantRow(variant: VariantItem)

  /** `QModelIndex`: the invalid index, or one made by `createIndex(row, column, item)`. */
  datatype ModelIndex = Invalid | Created(row: int, column: int, item: Item)

  function ItemObject(i: Item): object {
    match i
    case RootRow(r) => r
    case FilterRow(f) => f
    case VariantRow(v) => v
  }

  /** The objects a lookup below `parent` reads: the parent's item and its own parent. */
  function Frame(root: RootItem, parent: ModelIndex): set<object>
    reads if parent.Created? && parent.item.VariantRow? then {parent.item.variant} else {}
  {
    {root} + match parent
      case Invalid => {}
      case Created(_, _, item) =>
        (match item
         case VariantRow(v) => {v} + (if v.parent != null then {v.parent} else {})
         case _ => {ItemObject(item)})
  }

  /** `TreeModel`: the item model over the tree below `root`. */
  class TreeModel {
    const root: RootItem

    constructor (root: RootItem)
      ensures this.root == root
    {
      this.root := root;
    }

    /** `rowCount`: the root's children for the invalid index, otherwise the item's
        children; variant rows have none. */
    function RowCount(parent: ModelIndex): (r: nat)
      reads Frame(root, parent)
      ensures parent.Invalid? ==> r == |root.children|
      ensures parent.Created? && parent.item.FilterRow? ==> r == |parent.item.filter.children|
      ensures parent.Created? && parent.item.VariantRow? ==> r == 0
    {
      match parent
      case Invalid => |root.children|
      case Created(_, _, item) =>
        match item
        case RootRow(r) => |r.children|
        case FilterRow(f) => |f.children|
        case VariantRow(_) => 0
    }

    /** `columnCount`: the tree has a single column. */
    function ColumnCount(parent: ModelIndex): (r: nat)
      ensures r == 1
    {
      1
    }

    /** `index`: the child at `row` below `parent`, or the invalid index when
        `hasIndex` rejects the row or the column. */
    function Index(row: int, column: int, parent: ModelIndex): (r: ModelIndex)
      reads Frame(root, parent)
      ensures r.Created? <==> 0 <= row < RowCount(parent) && column == 0
      ensures r.Created? ==> r.row == row && r.column == column
      ensures r.Created? && parent.Invalid? ==> r.item == FilterRow(root.children[row])
      ensures r.Created? && parent.Created? && parent.item.FilterRow? ==> (
        r.item == VariantRow(parent.item.filter.children[row]))
    {
      if !(0 <= row < RowCount(parent) && 0 <= column < ColumnCount(parent)) then Invalid
      else
        match parent
        case Invalid => Created(row, column, FilterRow(root.children[row]))
        case Created(_, _, item) =>
          match item
          case RootRow(r) => Created(row, column, FilterRow(r.children[row]))
          case FilterRow(f) => Created(row, column, VariantRow(f.children[row]))
    }

    /** `parent`: the invalid index for the invalid index, for the root and for an item
        whose parent is missing or is the root; otherwise the parent's index at its own
        row. */
    function Parent(child: ModelIndex): (r: ModelIndex)
      reads Frame(root, child)
      ensures child.Invalid? ==> r.Invalid?
      ensures child.Created? && child.item.FilterRow? && child.item.filter.parent == root ==> r.Invalid?
      ensures child.Created? && child.item.VariantRow? && child.item.variant.parent != null ==> (
        r == Created(child.item.variant.parent.rowInParent, 0, FilterRow(child.item.variant.parent)))
    {
      match child
      case Invalid => Invalid
      case Created(_, _, item) =>
        match item
        case RootRow(_) => Invalid
        case FilterRow(f) =>
          if f.parent == null || f.parent == root then Invalid else Created(0, 0, RootRow(f.parent))
        case VariantRow(v) =>
          if v.parent == null then Invalid else Created(v.parent.rowInParent, 0, FilterRow(v.parent))
    }

    /** Parent undoes index: in a tree whose items know their parents and rows, the parent
        of a filter row is the invalid index and the parent of a variant row is the index
        of its filter row. */
    lemma {:induction false} ParentOfIndex(i: nat, j: nat)
      requires root.Valid() && i < |root.children| && root.children[i].Valid()
      ensures Index(i, 0, Invalid).Created?
      ensures Parent(Index(i, 0, Invalid)) == Invalid
      ensures j < |root.children[i].children| ==> (
        Parent(Index(j, 0, Index(i, 0, Invalid))) == Index(i, 0, Invalid))
    {
      var f := root.children[i];
      assert f.parent == root && f.rowInParent == i;
      if j < |f.children| {
        var p := Index(i, 0, Invalid);
        assert p == Created(i, 0, FilterRow(f));
        var c := Index(j, 0, p);
        assert c == Created(j, 0, VariantRow(f.children[j]));
        assert f.children[j].parent == f && f.children[j].rowInParent == j;
      }
    }

    /** `set_checked` on a variant row: checking it first unchecks every row below the
        same filter. It sets the `checked` flags only; the filter's `checked_children` are
        not touched. */
    method SetVariantChecked(item: VariantItem, checked: bool)
      modifies item`checked, Siblings(item)`checked
      ensures item.checked == checked
      ensures checked && item.parent != null ==> (
        forall s :: s in item.parent.children && s != item ==> !s.checked)
      ensures !checked ==> forall s :: s in old(Siblings(item)) && s != item ==> s.checked == old(s.checked)
      ensures item.parent == old(item.parent)
    {
      if checked && item.parent != null {
        var siblings := item.parent.children;
        for k := 0 to |siblings|
          invariant item.parent == old(item.parent) && item.parent != null && item.parent.children == siblings
          invariant forall j :: 0 <= j < k ==> !siblings[j].checked
        {
          siblings[k].checked := false;
        }
      }
      item.checked := checked;
    }

    /** `set_checked` on a filter row: checking it first unchecks every filter row below
        the same root. */
    method SetFilterChecked(item: FilterItem, checked: bool)
      modifies item`checked, FilterSiblings(item)`checked
      ensures item.checked == checked
      ensures checked && item.parent != null ==> (
        forall s :: s in item.parent.children && s != item ==> !s.checked)
      ensures !checked ==> forall s :: s in old(FilterSiblings(item)) && s != item ==> s.checked == old(s.checked)
      ensures item.parent == old(item.parent) && item.checkedChildren == old(item.checkedChildren)
    {
      if checked && item.parent != null {
        var siblings := item.parent.children;
        for k := 0 to |siblings|
          invariant item.parent == old(item.parent) && item.parent != null && item.parent.children == siblings
          invariant item.checkedChildren == old(item.checkedChildren)
          invariant forall j :: 0 <= j < k ==> !siblings[j].checked
        {
          siblings[k].checked := false;
        }
      }
      item.checked := checked;
    }
  }

  function Siblings(item: VariantItem): seq<VariantItem>
    reads item, if item.parent != null then {item.parent} else {}
  {
    if item.parent != null then item.parent.children else []
  }

  function FilterSiblings(item: FilterItem): seq<FilterItem>
    reads item, if item.parent != null then {item.parent} else {}
  {
    if item.parent != null then item.parent.children else []
  }

  // ---------------------------------------------------------------------------
  // Splitting the filter text into words

  /** The characters Python's `str.isspace` accepts, which `str.split()` splits on. */
  predicate IsSpace(c: char) {
    c == ' ' || '\t' <= c <= '\r' || '\U{1c}' <= c <= '\U{1f}' || c == '\U{85}' || c == '\U{a0}'
    || c == '\U{1680}' || '\U{2000}' <= c <= '\U{200a}' || c == '\U{2028}' || c == '\U{2029}'
    || c == '\U{202f}' || c == '\U{205f}' || c == '\U{3000}'
  }

  predicate NoSpace(w: string) {
    forall i :: 0 <= i < |w| ==> !IsSpace(w[i])
  }

  /** The end of the word that starts at `i`: the next space or the end of the text. */
  function WordEnd(s: string, i: nat): (r: nat)
    requires i <= |s|
    ensures i <= r <= |s| && (r == |s| || IsSpace(s[r]))
    ensures forall k :: i <= k < r ==> !IsSpace(s[k])
    decreases |s| - i
  {
    if i == |s| || IsSpace(s[i]) then i else WordEnd(s, i + 1)
  }

  /** `str.split()` with no separator: the maximal runs of non-space characters, in
      order. */
  function Words(s: string): (r: seq<string>)
    ensures forall k :: 0 <= k < |r| ==> r[k] != [] && NoSpace(r[k])
    decreases |s|
  {
    if s == [] then []
    else if IsSpace(s[0]) then Words(s[1..])
    else
      var n := WordEnd(s, 0);
      [s[..n]] + Words(s[n..])
  }

  /** The words joined with single spaces, as `" ".join(words)`. */
  function Join(ws: seq<string>): string {
    if ws == [] then ""
    else if |ws| == 1 then ws[0]
    else ws[0] + " " + Join(ws[1..])
  }

  /** A word ends where the space after it begins. */
  lemma {:induction false} WordEndOfWord(w: string, rest: string, i: nat)
    requires i <= |w| && NoSpace(w) && (rest == [] || IsSpace(rest[0]))
    ensures WordEnd(w + rest, i) == |w|
    decreases |w| - i
  {
    if i < |w| {
      assert (w + rest)[i] == w[i];
      WordEndOfWord(w, rest, i + 1);
    } else if rest != [] {
      assert (w + rest)[i] == rest[0];
    }
  }

  /** Splitting undoes joining with spaces when no word is empty or holds a space. */
  lemma {:induction false} WordsOfJoin(ws: seq<string>)
    requires forall k :: 0 <= k < |ws| ==> ws[k] != [] && NoSpace(ws[k])
    ensures Words(Join(ws)) == ws
  {
    if ws != [] {
      var w := ws[0];
      var rest := if |ws| == 1 then "" else " " + Join(ws[1..]);
      var s := Join(ws);
      assert s == w + rest;
      WordEndOfWord(w, rest, 0);
      assert s[0] == w[0];
      assert s[..|w|] == w;
      assert s[|w|..] == rest;
      if |ws| > 1 {
        WordsOfJoin(ws[1..]);
        assert rest[1..] == Join(ws[1..]);
      }
    }
  }

  /** Text that occurs after a prefix also occurs in the whole text. */
  lemma ContainsInSuffix(s: string, n: nat, w: string)
    requires n <= |s| && Contains(s[n..], w)
    ensures Contains(s, w)
  {
    var i :| 0 <= i <= |s[n..]| && MatchAt(s[n..], w, i);
    assert s[n + i..n + i + |w|] == s[n..][i..i + |w|];
    assert MatchAt(s, w, n + i);
  }

  /** Every word of a text occurs in the text. */
  lemma {:induction false} WordsOccur(s: string)
    ensures forall k :: 0 <= k < |Words(s)| ==> Contains(s, Words(s)[k])
    decreases |s|
  {
    if s != [] {
      if IsSpace(s[0]) {
        WordsOccur(s[1..]);
        forall k | 0 <= k < |Words(s)|
          ensures Contains(s, Words(s)[k])
        {
          ContainsInSuffix(s, 1, Words(s)[k]);
        }
      } else {
        var n := WordEnd(s, 0);
        WordsOccur(s[n..]);
        assert MatchAt(s, s[..n], 0);
        forall k | 1 <= k < |Words(s)|
          ensures Contains(s, Words(s)[k])
        {
          assert Words(s)[k] == Words(s[n..])[k - 1];
          ContainsInSuffix(s, n, Words(s)[k]);
        }
      }
    }
  }

  // ---------------------------------------------------------------------------
  // The proxy

  /** A Python index into a sequence of length `n`: negative indices count from the end,
      anything else outside raises an IndexError. */
  function PyIndex(n: nat, i: int): (r: Option<nat>)
    ensures r.Some? <==> -(n as int) <= i < n
    ensures r.Some? ==> r.value < n && (r.value == i || r.value == i + n)
  {
    if 0 <= i < n then Some(i) else if -(n as int) <= i < 0 then Some(i + n) else None
  }

  /** `TreeProxyModel`: the tree model seen through the words typed in the filter box. */
  class TreeProxyModel {
    const source: TreeModel
    var words: seq<string>

    constructor (source: TreeModel)
      ensures this.source == source && words == []
    {
      this.source := source;
      words := [];
    }

    /** `filterAcceptsRow`: with no words, or for a top-level row, every row is shown.
        Otherwise the child at `sourceRow` (a Python index, so negative rows count from
        the end) decides: a variant row is shown when all words occur in its fuzzed
        label, a filter row below the root is always shown, and a missing child (every
        row below a variant, which has none) raises an IndexError (None). */
    function FilterAcceptsRow(sourceRow: int, sourceParent: ModelIndex): (r: Option<bool>)
      reads this, if sourceParent.Created? then {ItemObject(sourceParent.item)} else {}
      reads if sourceParent.Created? && sourceParent.item.FilterRow? then sourceParent.item.filter.children else []
      ensures words == [] || sourceParent.Invalid? ==> r == Some(true)
      ensures words != [] && sourceParent.Created? && sourceParent.item.FilterRow? ==> (
        var f := sourceParent.item.filter;
        (r.Some? <==> PyIndex(|f.children|, sourceRow).Some?)
        && (r.Some? ==> r.value == f.children[PyIndex(|f.children|, sourceRow).value].FilterAcceptsRow(words)))
      ensures words != [] && sourceParent.Created? && sourceParent.item.RootRow? ==> (
        r == if PyIndex(|sourceParent.item.root.children|, sourceRow).Some? then Some(true) else None)
      ensures words != [] && sourceParent.Created? && sourceParent.item.VariantRow? ==> r == None
      ensures r == Some(false) ==> (
        sourceParent.Created? && sourceParent.item.FilterRow?
        && exists i :: 0 <= i < |sourceParent.item.filter.children|
             && !sourceParent.item.filter.children[i].FilterAcceptsRow(words))
    {
      if words == [] || sourceParent.Invalid? then Some(true)
      else
        match sourceParent.item
        case RootRow(root) => if PyIndex(|root.children|, sourceRow).Some? then Some(true) else None
        case FilterRow(f) =>
          (match PyIndex(|f.children|, sourceRow)
           case None => None
           case Some(i) => Some(f.children[i].FilterAcceptsRow(words)))
        case VariantRow(_) => None
    }

    /** `set_filter`: the words of the fuzzed text. The delayed re-filtering is not
        part of this model. */
    method SetFilter(text: string, normalize: string -> string)
      modifies this
      ensures words == Words(Fuzzed(text, normalize))
    {
      var fuzzed := FuzzText(text, normalize);
      words := Words(fuzzed);
    }
  }

  /** Typing a variant's own label never hides it: the words of its fuzzed label all
      occur in that label. */
  lemma OwnLabelShowsRow(v: VariantItem, normalize: string -> string)
    requires v.fuzzyText == Fuzzed(Label(v.data), normalize)
    ensures v.FilterAcceptsRow(Words(Fuzzed(Label(v.data), normalize)))
  {
    WordsOccur(v.fuzzyText);
  }

  /** Through the proxy: once the filter box holds a variant's own label, the variant's
      row below its filter row is shown. */
  lemma ProxyShowsOwnLabel(proxy: TreeProxyModel, f: FilterItem, row: nat, normalize: string -> string)
    requires row < |f.children|
    requires f.children[row].fuzzyText == Fuzzed(Label(f.children[row].data), normalize)
    requires proxy.words == Words(Fuzzed(Label(f.children[row].data), normalize))
    ensures proxy.FilterAcceptsRow(row, Created(f.rowInParent, 0, FilterRow(f))) == Some(true)
  {
    OwnLabelShowsRow(f.children[row], normalize);
  }
}
