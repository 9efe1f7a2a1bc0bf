/**
 * `OnlySelectField`: a list that can only be appended to (by typing or by
 * picking a suggestion) and spliced from; there is no inline editing. The
 * suggestions it offers leave out values already chosen, unless the
 * catalog is too large to filter.
 */
module OnlySelectField {
  import opened SelectField
  import JsArray

  /** Whether a catalog entry is not chosen yet. */
  function NotChosen(editedData: seq<string>): (keep: AutoCompleteData -> bool)
  {
    (item: AutoCompleteData) => item.value !in editedData
  }

  /**
   * `newAutoCompleteList`: the catalog without the values in `editedData`,
   * or the whole catalog when it holds more than `maxToFilter` entries
   * (the configured `MAX_AUTOCOMPLETE_LENGTH_TO_FILTER`).
   */
  function OfferedList(catalog: seq<AutoCompleteData>, editedData: seq<string>, maxToFilter: int)
    : (r: seq<AutoCompleteData>)
    ensures |r| <= |catalog|
    ensures |catalog| > maxToFilter ==> r == catalog
    ensures |catalog| <= maxToFilter ==> forall i :: 0 <= i < |r| ==> r[i].value !in editedData
  {
    if |catalog| > maxToFilter then catalog
    else JsArray.Filter(catalog, NotChosen(editedData))
  }

  /**
   * Up to the threshold, the offered list is the catalog, in its order, with
   * exactly the chosen values taken out: each remaining entry keeps all its
   * occurrences.
   */
  lemma OfferedListFiltered(catalog: seq<AutoCompleteData>, editedData: seq<string>, maxToFilter: int)
    requires |catalog| <= maxToFilter
    ensures JsArray.IsSubsequence(OfferedList(catalog, editedData, maxToFilter), catalog)
    ensures forall item :: item in OfferedList(catalog, editedData, maxToFilter) <==>
      item in catalog && item.value !in editedData
    ensures forall item :: item in catalog && item.value !in editedData ==>
      multiset(OfferedList(catalog, editedData, maxToFilter))[item] == multiset(catalog)[item]
  {
    var keep := NotChosen(editedData);
    JsArray.FilterIsSubsequence(catalog, keep);
    forall item
      ensures item in OfferedList(catalog, editedData, maxToFilter) <==> item in catalog && item.value !in editedData
      ensures multiset(OfferedList(catalog, editedData, maxToFilter))[item]
        == if item.value !in editedData then multiset(catalog)[item] else 0
    {
      JsArray.FilterMembership(catalog, keep, item);
      JsArray.FilterCount(catalog, keep, item);
    }
  }

  /** Above the threshold the catalog is offered unchanged. */
  lemma OfferedListUnfiltered(catalog: seq<AutoCompleteData>, editedData: seq<string>, maxToFilter: int)
    requires |catalog| > maxToFilter
    ensures OfferedList(catalog, editedData, maxToFilter) == catalog
  {
  }

  /** With nothing chosen, the whole catalog is offered whatever its size. */
  lemma NothingChosenOffersAll(catalog: seq<AutoCompleteData>, maxToFilter: int)
    ensures OfferedList(catalog, [], maxToFilter) == catalog
  {
    if |catalog| <= maxToFilter {
      JsArray.FilterAllKept(catalog, NotChosen([]));
    }
  }

  /**
   * The component. `list` is the parent's `editedData`; `updates` records
   * every list passed to `updateData`.
   */
  class OnlySelectField {
    var list: seq<string>
    var updates: seq<seq<string>>

    constructor (editedData: seq<string>)
      ensures list == editedData && updates == []
    {
      list := editedData;
      updates := [];
    }

    /** The parent's `updateData` callback. */
    method UpdateData(newList: seq<string>)
      modifies this
      ensures list == newList && updates == old(updates) + [newList]
    {
      updates := updates + [newList];
      list := newList;
    }

    /** `handleAddItem`: appends one value. */
    method HandleAddItem(value: string)
      modifies this
      ensures |list| == |old(list)| + 1 && list[..|old(list)|] == old(list) && list[|old(list)|] == value
      ensures updates == old(updates) + [list]
    {
      var updated := list;
      updated := updated + [value];
      UpdateData(updated);
    }

    /** `handleRemoveItem`: `splice(idx, 1)` on a copy of the list. */
    method HandleRemoveItem(idx: int)
      modifies this
      ensures list == JsArray.Splice1(old(list), idx)
      ensures 0 <= idx < |old(list)| ==> list == old(list)[..idx] + old(list)[idx + 1..]
      ensures updates == old(updates) + [list]
    {
      var updated := list;
      updated := JsArray.Splice1(updated, idx);
      assert 0 <= idx < |old(list)| ==> updated == old(list)[..idx] + old(list)[idx + 1..];
      UpdateData(updated);
    }

    /** `handleAutoCompleteSelect`: picking a suggestion adds its value. */
    method HandleAutoCompleteSelect(data: AutoCompleteData)
      modifies this
      ensures list == old(list) + [data.value]
      ensures updates == old(updates) + [list]
    {
      HandleAddItem(data.value);
    }
  }
}
