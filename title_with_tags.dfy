/**
 * `TitleWithTags`: the table cell that shows a transcript's title with a
 * category badge, its tag badges and an overflow counter. Everything it
 * shows is a function of its props.
 */
module TitleWithTags {
  import opened Wrappers
  import opened JsText
  import JsArray

  /** The `categories` prop: one string, or an array of them. */
  datatype Categories = Text(text: string) | List(items: seq<string>)

  /** An entry of the `transcriptsCategories` table. */
  datatype TranscriptCategory = TranscriptCategory(slug: string, name: string)

  /** A badge: its text and its index into the four-colour `tagColors` palette. */
  datatype Badge = Badge(text: string, color: int)

  /** What the cell shows. `overflow` is the number after the "+". */
  datatype Cell = Cell(title: string, category: Option<Badge>, tags: seq<Badge>, overflow: Option<int>)

  const PaletteSize: int := 4

  /** The tag value that stands for "no tag". */
  const NoTag: string := "none"

  /** The number of tags counted as shown before the overflow counter takes the rest. */
  const ShownBeforeOverflow: int := 2

  /** `categories.length`: characters of a string, entries of an array. */
  function CategoriesLength(categories: Categories): (n: nat)
    ensures categories.Text? ==> n == |categories.text|
    ensures categories.List? ==> n == |categories.items|
  {
    match categories
    case Text(s) => |s|
    case List(xs) => |xs|
  }

  /**
   * `stringCategories`: the first category, taken from the array or from
   * `convertStringToArray` of the string; `""` when there is none.
   */
  function CategoryKey(categories: Categories, convertStringToArray: string -> seq<string>): (key: string)
    ensures categories.List? && categories.items != [] ==> key == categories.items[0]
    ensures categories.Text? && convertStringToArray(categories.text) != [] ==>
      key == convertStringToArray(categories.text)[0]
    ensures categories.List? && categories.items == [] ==> key == ""
    ensures categories.Text? && convertStringToArray(categories.text) == [] ==> key == ""
  {
    var first := match categories
      case List(xs) => if xs != [] then Some(xs[0]) else None
      case Text(s) => var xs := convertStringToArray(s); if xs != [] then Some(xs[0]) else None;
    match first
    case Some(k) => k
    case None => ""
  }

  /** The `find` test: the entry's slug equals the key up to letter case. */
  function SlugMatches(key: string): (matches: TranscriptCategory -> bool)
  {
    (entry: TranscriptCategory) => EqualIgnoringCase(entry.slug, key)
  }

  /** `foundCategories`. */
  function FoundCategory(table: seq<TranscriptCategory>, key: string): (r: Option<TranscriptCategory>)
    ensures r.Some? <==> exists i :: 0 <= i < |table| && EqualIgnoringCase(table[i].slug, key)
    ensures r.Some? ==> r.value in table && EqualIgnoringCase(r.value.slug, key)
  {
    JsArray.Find(table, SlugMatches(key))
  }

  /** The tag the `filter` keeps: one that is not "none" in any letter case. */
  function IsShownTag(): (keep: string -> bool)
  {
    (tag: string) => ToLower(tag) != NoTag
  }

  /** `tags`: `allTags.slice(0, 1)` when slicing, else all of them. */
  function SlicedTags(allTags: seq<string>, shouldSlice: bool): (r: seq<string>)
    ensures shouldSlice ==> r == if allTags == [] then [] else [allTags[0]]
    ensures !shouldSlice ==> r == allTags
  {
    if shouldSlice then allTags[..if |allTags| < 1 then |allTags| else 1] else allTags
  }

  /** The tag texts shown: the sliced tags without "none". */
  function ShownTags(allTags: seq<string>, shouldSlice: bool): (r: seq<string>)
    ensures |r| <= |allTags|
    ensures shouldSlice ==> |r| <= 1
    ensures forall i :: 0 <= i < |r| ==> ToLower(r[i]) != NoTag
  {
    JsArray.Filter(SlicedTags(allTags, shouldSlice), IsShownTag())
  }

  /** The category badge's palette index, `categories.length % 4`. */
  function CategoryColor(categories: Categories): (c: int)
    ensures 0 <= c < PaletteSize
    ensures (c - CategoriesLength(categories)) % PaletteSize == 0
  {
    CategoriesLength(categories) % PaletteSize
  }

  /** The palette index of the tag at position `index`, `(id + index) % 4`. */
  function TagColor(id: int, index: nat): (c: int)
    requires id >= 0
    ensures 0 <= c < PaletteSize
    ensures (c - id - index) % PaletteSize == 0
  {
    (id + index) % PaletteSize
  }

  /** The overflow counter `+(length - 2)`, shown only when more than two tags exist and slicing is on. */
  function Overflow(length: int, shouldSlice: bool): (r: Option<int>)
    ensures r.Some? <==> length > 2 && shouldSlice
    ensures r.Some? ==> r.value == length - 2 >= 1
  {
    if length > ShownBeforeOverflow && shouldSlice then Some(length - ShownBeforeOverflow) else None
  }

  /** The whole derivation. `shouldSlice` defaults to `true` at the call sites that omit it. */
  function Render(title: string, allTags: seq<string>, categories: Categories, id: int, length: int,
                  shouldSlice: bool, convertStringToArray: string -> seq<string>,
                  table: seq<TranscriptCategory>): (cell: Cell)
    requires id >= 0
    ensures cell.title == title
    ensures cell.overflow.Some? <==> length > 2 && shouldSlice
    ensures |cell.tags| <= |allTags| && (shouldSlice ==> |cell.tags| <= 1)
    ensures forall i :: 0 <= i < |cell.tags| ==>
      ToLower(cell.tags[i].text) != NoTag && 0 <= cell.tags[i].color < PaletteSize
    ensures cell.category.Some? ==> 0 <= cell.category.value.color < PaletteSize
  {
    var found := FoundCategory(table, CategoryKey(categories, convertStringToArray));
    var shown := ShownTags(allTags, shouldSlice);
    Cell(
      title,
      match found
        case None => None
        case Some(entry) => Some(Badge(entry.name, CategoryColor(categories))),
      seq(|shown|, i requires 0 <= i < |shown| => Badge(shown[i], TagColor(id, i))),
      Overflow(length, shouldSlice))
  }

  /**
   * A category badge is shown exactly when some table entry's slug equals
   * the key up to case, and it carries the name of the first such entry.
   */
  lemma CategoryBadgeIff(title: string, allTags: seq<string>, categories: Categories, id: int, length: int,
                         shouldSlice: bool, convertStringToArray: string -> seq<string>,
                         table: seq<TranscriptCategory>)
    requires id >= 0
    ensures
      var key := CategoryKey(categories, convertStringToArray);
      var cell := Render(title, allTags, categories, id, length, shouldSlice, convertStringToArray, table);
      && (cell.category.Some? <==> exists i :: 0 <= i < |table| && EqualIgnoringCase(table[i].slug, key))
      && (cell.category.Some? ==>
            && cell.category.value.color == CategoriesLength(categories) % PaletteSize
            && exists i :: 0 <= i < |table| && EqualIgnoringCase(table[i].slug, key)
                           && cell.category.value.text == table[i].name
                           && forall j :: 0 <= j < i ==> !EqualIgnoringCase(table[j].slug, key))
  {
  }

  /**
   * The tag position-`i` badge shows the `i`-th kept tag and takes palette
   * index `(id + i) % 4`.
   */
  lemma TagBadges(title: string, allTags: seq<string>, categories: Categories, id: int, length: int,
                  shouldSlice: bool, convertStringToArray: string -> seq<string>,
                  table: seq<TranscriptCategory>)
    requires id >= 0
    ensures
      var cell := Render(title, allTags, categories, id, length, shouldSlice, convertStringToArray, table);
      && |cell.tags| == |ShownTags(allTags, shouldSlice)|
      && forall i :: 0 <= i < |cell.tags| ==>
           cell.tags[i] == Badge(ShownTags(allTags, shouldSlice)[i], (id + i) % PaletteSize)
  {
  }

  /** No shown tag is "none" in any letter case. */
  lemma NoNoneShown(allTags: seq<string>, shouldSlice: bool)
    ensures forall t :: t in ShownTags(allTags, shouldSlice) ==> ToLower(t) != "none"
  {
  }

  /**
   * With slicing on, at most the first tag is shown, and only when it is not
   * "none"; a "none" first tag is not replaced by a later one.
   */
  lemma SlicedShowsFirstTag(allTags: seq<string>)
    ensures ShownTags(allTags, true) ==
      if allTags != [] && ToLower(allTags[0]) != NoTag then [allTags[0]] else []
  {
  }

  /**
   * With slicing off, the shown tags are all tags in their order with the
   * "none" ones taken out, every other tag as often as it occurs.
   */
  lemma UnslicedShowsAllButNone(allTags: seq<string>)
    ensures JsArray.IsSubsequence(ShownTags(allTags, false), allTags)
    ensures forall t :: t in ShownTags(allTags, false) <==> t in allTags && ToLower(t) != NoTag
    ensures forall t :: ToLower(t) != NoTag ==> multiset(ShownTags(allTags, false))[t] == multiset(allTags)[t]
  {
    JsArray.FilterIsSubsequence(allTags, IsShownTag());
    forall t
      ensures t in ShownTags(allTags, false) <==> t in allTags && ToLower(t) != NoTag
      ensures ToLower(t) != NoTag ==> multiset(ShownTags(allTags, false))[t] == multiset(allTags)[t]
    {
      JsArray.FilterMembership(allTags, IsShownTag(), t);
      JsArray.FilterCount(allTags, IsShownTag(), t);
    }
  }

  /**
   * Tags ["news", "sports", "none", "weather"] with length 4 and slicing
   * on show the single badge "news" and the counter "+2".
   */
  lemma ExampleNewsSports(categories: Categories, id: int, convertStringToArray: string -> seq<string>,
                          table: seq<TranscriptCategory>)
    requires id >= 0
    ensures
      var cell := Render("title", ["news", "sports", "none", "weather"], categories, id, 4, true,
                         convertStringToArray, table);
      && |cell.tags| == 1 && cell.tags[0].text == "news"
      && cell.overflow == Some(2)
  {
    var allTags := ["news", "sports", "none", "weather"];
    SlicedShowsFirstTag(allTags);
    NoneInAnyCase("news");
  }
}
