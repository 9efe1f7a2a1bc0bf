/**
 * `SingleSelectField`: a drop-down holding at most one value. The options
 * are the catalog followed by every chosen value the catalog lacks, so a
 * past choice stays visible after the catalog changes.
 */
module SingleSelectField {
  import opened JsText
  import opened SelectField
  import JsArray

  /** What `handleSelect` passes to `updateData`: nothing for a blank option, else the option. */
  function Selection(value: string): (r: seq<string>)
    ensures |r| <= 1
    ensures r == [] <==> IsBlank(value)
    ensures forall v :: v in r ==> v == value
  {
    if IsBlank(value) then [] else [value]
  }

  /** `autoCompleteList.map((item) => item.value)`. */
  function Values(catalog: seq<AutoCompleteData>): (r: seq<string>)
    ensures |r| == |catalog|
    ensures forall i :: 0 <= i < |catalog| ==> r[i] == catalog[i].value
  {
    seq(|catalog|, i requires 0 <= i < |catalog| => catalog[i].value)
  }

  /** A value is among the catalog's values exactly when some entry carries it. */
  lemma InValues(catalog: seq<AutoCompleteData>, v: string)
    ensures v in Values(catalog) <==> exists e :: e in catalog && e.value == v
  {
  }

  /** The test `!flattenedListData.includes(item)`. */
  function NotListed(values: seq<string>): (keep: string -> bool)
  {
    (item: string) => item !in values
  }

  /** The chosen values absent from the catalog, in order and with repetitions. */
  function Missing(editedData: seq<string>, catalog: seq<AutoCompleteData>): (r: seq<string>)
    ensures |r| <= |editedData|
    ensures forall i :: 0 <= i < |r| ==> r[i] !in Values(catalog)
  {
    JsArray.Filter(editedData, NotListed(Values(catalog)))
  }

  /**
   * What `prevSelectedDataNotInList` returns: one `{slug: slugify(v), value: v}`
   * per missing chosen value `v`.
   */
  function MissingEntries(editedData: seq<string>, catalog: seq<AutoCompleteData>, slugify: string -> string)
    : (r: seq<AutoCompleteData>)
    ensures |r| <= |editedData|
    ensures forall i :: 0 <= i < |r| ==> r[i].slug == slugify(r[i].value) && r[i].value !in Values(catalog)
  {
    if |editedData| == 0 then []
    else
      var missing := Missing(editedData, catalog);
      seq(|missing|, i requires 0 <= i < |missing| => AutoCompleteData(slugify(missing[i]), missing[i]))
  }

  /**
   * `prevSelectedDataNotInList`: returns early on an empty selection, else
   * filters the chosen values against the catalog's and pushes one
   * synthesized entry per missing value.
   */
  method PrevSelectedDataNotInList(editedData: seq<string>, catalog: seq<AutoCompleteData>,
                                   slugify: string -> string)
    returns (newListItems: seq<AutoCompleteData>)
    ensures newListItems == MissingEntries(editedData, catalog, slugify)
  {
    newListItems := [];
    if |editedData| == 0 {
      return;
    }
    var flattened := Values(catalog);
    var missing := JsArray.Filter(editedData, NotListed(flattened));
    var i := 0;
    while i < |missing|
      invariant 0 <= i <= |missing|
      invariant |newListItems| == i
      invariant forall k :: 0 <= k < i ==> newListItems[k] == AutoCompleteData(slugify(missing[k]), missing[k])
    {
      var slug := slugify(missing[i]);
      newListItems := newListItems + [AutoCompleteData(slug, missing[i])];
      i := i + 1;
    }
  }

  /** `newAutoCompleteList`: the catalog followed by the synthesized entries. */
  function Options(catalog: seq<AutoCompleteData>, editedData: seq<string>, slugify: string -> string)
    : (r: seq<AutoCompleteData>)
    ensures |catalog| <= |r| <= |catalog| + |editedData|
    ensures r[..|catalog|] == catalog
  {
    catalog + MissingEntries(editedData, catalog, slugify)
  }

  /**
   * The synthesized entries are exactly the chosen values whose value no
   * catalog entry carries, in order, each occurring as often as it was
   * chosen, each with the slug `slugify` gives it.
   */
  lemma MissingEntriesExact(editedData: seq<string>, catalog: seq<AutoCompleteData>,
                            slugify: string -> string)
    ensures
      var extra := MissingEntries(editedData, catalog, slugify);
      && (forall e :: e in extra ==> e.slug == slugify(e.value))
      && JsArray.IsSubsequence(Values(extra), editedData)
      && (forall v :: multiset(Values(extra))[v] ==
            if v in Values(catalog) then 0 else multiset(editedData)[v])
  {
    var keep := NotListed(Values(catalog));
    var extra := MissingEntries(editedData, catalog, slugify);
    if |editedData| == 0 {
      assert Values(extra) == [];
    } else {
      assert Values(extra) == Missing(editedData, catalog);
      JsArray.FilterIsSubsequence(editedData, keep);
      forall v {
        JsArray.FilterCount(editedData, keep, v);
      }
    }
  }

  /** Nothing is synthesized when nothing is chosen. */
  lemma NoSelectionNoEntries(catalog: seq<AutoCompleteData>, slugify: string -> string)
    ensures MissingEntries([], catalog, slugify) == []
  {
  }

  /** The options start with the catalog and carry every chosen value. */
  lemma OptionsCoverSelection(catalog: seq<AutoCompleteData>, editedData: seq<string>,
                              slugify: string -> string)
    ensures Options(catalog, editedData, slugify)[..|catalog|] == catalog
    ensures forall v :: v in editedData ==> v in Values(Options(catalog, editedData, slugify))
  {
    var all := Options(catalog, editedData, slugify);
    var extra := MissingEntries(editedData, catalog, slugify);
    assert all[..|catalog|] == catalog;
    forall v | v in editedData
      ensures v in Values(all)
    {
      if v in Values(catalog) {
        var i :| 0 <= i < |catalog| && Values(catalog)[i] == v;
        assert Values(all)[i] == v;
      } else {
        JsArray.FilterMembership(editedData, NotListed(Values(catalog)), v);
        var missing := Missing(editedData, catalog);
        var j :| 0 <= j < |missing| && missing[j] == v;
        assert extra[j].value == v;
        assert Values(all)[|catalog| + j] == v;
      }
    }
  }
}
