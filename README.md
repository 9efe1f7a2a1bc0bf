# Editable select fields and the title-with-tags cell

A Dafny model of the list-editing logic of a transcription-review front end
and of the badge derivation of its transcript table:

- `SelectField` (module `SelectField`): a list of strings, owned by the
  parent, with one inline editor per row and a "new row" editor. The
  component keeps `isNew` and `editState = {idx, value, autoCompleteValue}`
  (`idx = -1`: no row open). Each handler is one atomic step. Pure functions
  (`InputChanged`, `AutoCompleteSelected`, `Toggled`, `AddedNew`,
  `EditedRows`, `NewRows`) give each step's effect, and the class
  `SelectField.SelectField` performs the steps, proved against them. Its
  fields are `isNew`, `editState`, `list` (the parent's `editedData`) and
  `updates` (every list handed to `updateData`, in order). Every handler
  keeps the invariant that the new-row editor and a row editor are never
  open together.
- `OnlySelectField` (module `OnlySelectField`): append and splice-out on
  the list, and the suggestion list without already chosen values, unless
  the catalog is larger than `MAX_AUTOCOMPLETE_LENGTH_TO_FILTER`.
- `SingleSelectField` (module `SingleSelectField`): a selection becomes
  `[]` or `[value]`. The options are the catalog followed by one synthesized
  `{slug: slugify(v), value: v}` entry per chosen value the catalog lacks.
  `prevSelectedDataNotInList` is a loop, proved against `MissingEntries`.
- `TitleWithTags` (module `TitleWithTags`): a pure function from the props
  to the cell. It gives the category badge (first table entry whose slug
  matches the first category up to letter case), the shown tags (sliced,
  "none" removed), the `+N` counter and the palette indices.

Support modules: `JsText` (`trim` and `toLowerCase`), `JsArray`
(`splice(idx, 1)`, index assignment, `filter`, `find` with JavaScript's
index rules) and `Wrappers` (`Option`, for `undefined` and for "no `updateData` call").

External pieces are parameters: `slugify` and `convertStringToArray` are
function values, `transcriptsCategories` is a list argument and
`UI_CONFIG.MAX_AUTOCOMPLETE_LENGTH_TO_FILTER` is the integer `maxToFilter`.
Of `tagColors` only the index into it is modelled.

Modelling choices:
- An omitted `name` argument of the commit handlers is modelled as `""`.
  Both are "not cancel", because the test is `name && name === "cancel"`.
- In `handleUpdateEdit`, the `toggleEdit` that follows `updateData` still
  sees the `editedData` the handler was called with. The model passes that
  list to `Toggle` explicitly. This only matters when the committed row is
  not the open one.
- `handleNewSpeaker` leaves `editState` as it was. Only `isNew` is cleared.

`SelectField.ExampleSession` is a parent driving the class: it renames a
row, then opens the new row and commits it empty, and asserts the lists
that result.

## Model

| member | source | states |
|---|---|---|
| `JsText.IsSpace` | src/components/sideBarContentEdit/SelectField.tsx:62 | the characters `trim` drops: ECMAScript's WhiteSpace and LineTerminator code points |
| `JsText.IsBlank` | src/components/sideBarContentEdit/SelectField.tsx:62 | the string has nothing but white space |
| `JsText.BlankIffTrimEmpty` | src/components/sideBarContentEdit/SelectField.tsx:62 | `!s.trim()` holds exactly when every character of `s` is JavaScript white space |
| `JsText.TrimStart` | src/components/sideBarContentEdit/SelectField.tsx:252 | the result is a suffix of the input; everything dropped is white space and the result does not start with white space |
| `JsText.TrimEnd` | src/components/sideBarContentEdit/SelectField.tsx:252 | the result is a prefix of the input; everything dropped is white space and the result does not end with white space |
| `JsText.Trim` | src/components/sideBarContentEdit/SelectField.tsx:62 | `trim` returns a contiguous middle of the input, with only white space dropped before and after it, and neither starting nor ending with white space |
| `JsText.LowerChar` | src/components/tables/TitleWithTags.tsx:29 | an ASCII upper-case letter becomes its lower-case letter; every other character is kept |
| `JsText.ToLower` | src/components/tables/TitleWithTags.tsx:59 | `toLowerCase` keeps the length and lower-cases each character in place |
| `JsText.EqualIgnoringCase` | src/components/tables/TitleWithTags.tsx:29 | the slug test of `foundCategories`: the strings have the same length and fold to the same letter at every position |
| `JsText.NoneInAnyCase` | src/components/tables/TitleWithTags.tsx:59 | `tag.toLowerCase() === "none"` holds exactly for the four-letter word none in any mixture of cases |
| `JsArray.SpliceStart` | src/components/sideBarContentEdit/SelectField.tsx:63 | the position `splice` starts at lies in `[0, length]` and is the index itself when that already lies there |
| `JsArray.Splice1` | src/components/sideBarContentEdit/SelectField.tsx:63 | on a row index, `splice(idx, 1)` drops exactly that element, the length goes down by one, and the elements before and after keep their order; past the end nothing changes; a negative index still removes one element, and one below `-length` removes the first |
| `JsArray.SpliceFromEnd` | src/components/sideBarContentEdit/SelectField.tsx:63 | a negative index `idx >= -length` counts from the end: `splice(idx, 1)` removes the element at `length + idx` |
| `JsArray.SpliceRemovesOne` | src/components/sideBarContentEdit/SelectField.tsx:194 | on a row index, the spliced list plus the removed element is the old list as a multiset |
| `JsArray.Assign` | src/components/sideBarContentEdit/SelectField.tsx:65 | `a[idx] = v` on a row index changes only element `idx`, to `v`, and keeps the length; at the index equal to the length it appends `v`; a negative index leaves the elements alone |
| `JsArray.Filter` | src/components/sideBarContentEdit/SelectField.tsx:206 | every element `filter` returns passes the test, and the result is no longer than the input |
| `JsArray.FilterMembership` | src/components/sideBarContentEdit/SelectField.tsx:262-264 | an element is in the filtered list exactly when it is in the list and passes the test |
| `JsArray.FilterCount` | src/components/sideBarContentEdit/SelectField.tsx:262-264 | `filter` keeps each passing element as often as it occurs and drops every failing one |
| `JsArray.FilterIsSubsequence` | src/components/tables/TitleWithTags.tsx:58-59 | `filter` returns an order-preserving subsequence of its input |
| `JsArray.FilterAllKept` | src/components/sideBarContentEdit/SelectField.tsx:206 | `filter` with a test every element passes returns the list unchanged |
| `JsArray.Find` | src/components/tables/TitleWithTags.tsx:28-30 | `find` returns a value iff some element passes, and then it is the first element that passes |
| `SelectField.InputChanged` | src/components/sideBarContentEdit/SelectField.tsx:45-52 | typing keeps the open row, makes the input the draft and clears the picked suggestion |
| `SelectField.AutoCompleteSelected` | src/components/sideBarContentEdit/SelectField.tsx:86-92 | picking keeps the open row and sets both the draft and the picked suggestion to the entry's value |
| `SelectField.RowText` | src/components/sideBarContentEdit/SelectField.tsx:105 | `editedData[idx] ?? ""` is the row's text on a row index, and `""` on every other index |
| `SelectField.SingleEditor` | src/components/sideBarContentEdit/SelectField.tsx:95-112 | the invariant "only one select at a time": while the new-row editor is open no row editor is |
| `SelectField.Toggled` | src/components/sideBarContentEdit/SelectField.tsx:94-107 | `toggleEdit` keeps the single-editor invariant, and toggling a real row closes the new-row editor |
| `SelectField.ToggleOpens` | src/components/sideBarContentEdit/SelectField.tsx:102-106 | toggling a closed row opens it with the row's text (`""` off the list) and keeps the picked suggestion |
| `SelectField.ToggleCloses` | src/components/sideBarContentEdit/SelectField.tsx:100-101 | toggling the open row resets the editor to the initial state; the new-row editor stays open only for row `-1` |
| `SelectField.ToggleTwiceIsInitial` | src/components/sideBarContentEdit/SelectField.tsx:94-107 | toggling a closed row twice returns the whole component state to its initial value |
| `SelectField.AddedNew` | src/components/sideBarContentEdit/SelectField.tsx:109-112 | `addNewSpeaker` always ends with the new-row editor open, no row editor open and an empty draft |
| `SelectField.EditedRows` | src/components/sideBarContentEdit/SelectField.tsx:60-66 | the list a commit sends: a blank draft on a row index removes that row and shifts the rest down; a non-blank draft replaces only that row, or appends at the index equal to the length |
| `SelectField.NewRows` | src/components/sideBarContentEdit/SelectField.tsx:71-83 | `handleNewSpeaker` sends a list exactly when the action is not cancel and the draft is non-empty (untrimmed), and that list is the old one with the draft appended |
| `SelectField.BlankCommitDeletesRow` | src/components/sideBarContentEdit/SelectField.tsx:60-64 | committing a blank draft on row `idx` removes exactly that row and shortens the list by one |
| `SelectField.FilledCommitReplacesRow` | src/components/sideBarContentEdit/SelectField.tsx:64-66 | committing a non-blank draft on row `idx` replaces only that row |
| `SelectField.EditBlankCommitScenario` | src/components/sideBarContentEdit/SelectField.tsx:45-69 | opening a row, clearing its draft and committing deletes the row and leaves the component in its initial state |
| `SelectField.PickCommitScenario` | src/components/sideBarContentEdit/SelectField.tsx:54-92 | picking a suggestion in the open row and committing writes the suggestion's value into that row |
| `SelectField.AddTypeCommitScenario` | src/components/sideBarContentEdit/SelectField.tsx:71-112 | on a component over any list, `addNewSpeaker`, typing a non-empty `x` and committing the new row hands `updateData` the list with `x` appended, exactly once |
| `SelectField.AddEmptyCommitScenario` | src/components/sideBarContentEdit/SelectField.tsx:78-79 | opening the new row and committing at once does not call `updateData` |
| `SelectField.ExampleRename` | src/components/sideBarContentEdit/SelectField.tsx:65 | editing row 1 of ["Alice", "Bob"] to "Bea" gives ["Alice", "Bea"] |
| `SelectField.ExampleSession` | src/components/sideBarContentEdit/SelectField.tsx:45-112 | a parent that renames row 1 of ["Alice", "Bob"] to "Bea", then opens the new row and commits it empty, ends with ["Alice", "Bea"] after exactly one `updateData` call |
| `SelectField.SelectField.constructor` | src/components/sideBarContentEdit/SelectField.tsx:41-43 | the component starts with no editor open and `initialEditState` |
| `SelectField.SelectField.UpdateData` | src/components/sideBarContentEdit/SelectField.tsx:13 | the parent's callback: the list becomes the one passed, and the one passed is logged |
| `SelectField.SelectField.HandleInputChange` | src/components/sideBarContentEdit/SelectField.tsx:45-52 | the editor becomes `InputChanged` of the old one; the list and `isNew` are untouched |
| `SelectField.SelectField.HandleAutoCompleteSelect` | src/components/sideBarContentEdit/SelectField.tsx:86-92 | the editor becomes `AutoCompleteSelected` of the old one; the list and `isNew` are untouched |
| `SelectField.SelectField.Toggle` | src/components/sideBarContentEdit/SelectField.tsx:94-107 | the state becomes `Toggled` of the old state, for the list the calling handler sees, and the invariant is kept |
| `SelectField.SelectField.ToggleEdit` | src/components/sideBarContentEdit/SelectField.tsx:94-107 | the state becomes `Toggled` of the old state and the current list; the list is untouched |
| `SelectField.SelectField.HandleUpdateEdit` | src/components/sideBarContentEdit/SelectField.tsx:54-69 | cancel leaves the list and the `updateData` log alone; otherwise `updateData` receives `EditedRows` of the old list; the editor is toggled with the old list and is reset when the committed row was the open one |
| `SelectField.SelectField.HandleNewSpeaker` | src/components/sideBarContentEdit/SelectField.tsx:71-84 | the new-row editor closes and the draft stays; the draft is appended through `updateData` unless the action is cancel or the draft is empty (untrimmed), and otherwise nothing is sent |
| `SelectField.SelectField.AddNewSpeaker` | src/components/sideBarContentEdit/SelectField.tsx:109-112 | the state becomes `AddedNew` of the old state; the list is untouched |
| `OnlySelectField.OfferedList` | src/components/sideBarContentEdit/SelectField.tsx:203-206 | `newAutoCompleteList` is never longer than the catalog; above the threshold it is the catalog, and up to it no offered entry has a chosen value |
| `OnlySelectField.NotChosen` | src/components/sideBarContentEdit/SelectField.tsx:206 | the `filter` test `!editedData.includes(item.value)` |
| `OnlySelectField.OfferedListFiltered` | src/components/sideBarContentEdit/SelectField.tsx:203-206 | up to the threshold the offered list is an order-preserving subsequence of the catalog whose members are exactly the catalog entries whose value is not chosen, each kept as often as it occurs |
| `OnlySelectField.OfferedListUnfiltered` | src/components/sideBarContentEdit/SelectField.tsx:204-205 | above the threshold the catalog is offered unchanged |
| `OnlySelectField.NothingChosenOffersAll` | src/components/sideBarContentEdit/SelectField.tsx:203-206 | with nothing chosen the whole catalog is offered |
| `OnlySelectField.OnlySelectField.constructor` | src/components/sideBarContentEdit/SelectField.tsx:179-185 | the field starts on the parent's list with no update sent |
| `OnlySelectField.OnlySelectField.UpdateData` | src/components/sideBarContentEdit/SelectField.tsx:13 | the parent's callback: the list becomes the one passed, and the one passed is logged |
| `OnlySelectField.OnlySelectField.HandleAddItem` | src/components/sideBarContentEdit/SelectField.tsx:186-190 | `updateData` receives the old list with exactly one value appended |
| `OnlySelectField.OnlySelectField.HandleRemoveItem` | src/components/sideBarContentEdit/SelectField.tsx:192-196 | `updateData` receives the old list with `splice(idx, 1)` applied, which on a row index is the list without that row |
| `OnlySelectField.OnlySelectField.HandleAutoCompleteSelect` | src/components/sideBarContentEdit/SelectField.tsx:198-200 | picking a suggestion appends its value through `updateData` |
| `SingleSelectField.Selection` | src/components/sideBarContentEdit/SelectField.tsx:250-257 | `updateData` receives `[]` exactly for a blank option, and otherwise the one-element list of that option |
| `SingleSelectField.Values` | src/components/sideBarContentEdit/SelectField.tsx:261 | the catalog's values, position by position |
| `SingleSelectField.InValues` | src/components/sideBarContentEdit/SelectField.tsx:261-264 | a value is among the flattened values exactly when some catalog entry carries it |
| `SingleSelectField.NotListed` | src/components/sideBarContentEdit/SelectField.tsx:263 | the `filter` test `!flattenedListData.includes(item)` |
| `SingleSelectField.Missing` | src/components/sideBarContentEdit/SelectField.tsx:261-264 | `_newLitsItems` is no longer than the selection, and none of its values is a catalog value |
| `SingleSelectField.MissingEntries` | src/components/sideBarContentEdit/SelectField.tsx:258-270 | what `prevSelectedDataNotInList` returns: no more entries than chosen values, each with slug `slugify` of its value and a value absent from the catalog |
| `SingleSelectField.PrevSelectedDataNotInList` | src/components/sideBarContentEdit/SelectField.tsx:258-270 | the loop returns exactly `MissingEntries`: nothing when nothing is chosen, else one entry per missing chosen value, in order |
| `SingleSelectField.MissingEntriesExact` | src/components/sideBarContentEdit/SelectField.tsx:258-270 | the synthesized entries' values are the chosen values absent from the catalog, in order, each as often as chosen, and each slug is `slugify` of its value |
| `SingleSelectField.NoSelectionNoEntries` | src/components/sideBarContentEdit/SelectField.tsx:260 | nothing is synthesized when nothing is chosen |
| `SingleSelectField.Options` | src/components/sideBarContentEdit/SelectField.tsx:272-274 | `newAutoCompleteList` starts with the whole catalog and adds at most one entry per chosen value |
| `SingleSelectField.OptionsCoverSelection` | src/components/sideBarContentEdit/SelectField.tsx:272-274 | the options start with the catalog and include every chosen value |
| `TitleWithTags.CategoryKey` | src/components/tables/TitleWithTags.tsx:24-27 | the key is the array's first element, or the first element of `convertStringToArray` of the string, or `""` when that list is empty |
| `TitleWithTags.SlugMatches` | src/components/tables/TitleWithTags.tsx:29 | the `find` test: an entry matches when its slug equals the key up to letter case |
| `TitleWithTags.CategoriesLength` | src/components/tables/TitleWithTags.tsx:44 | `categories.length`: the string's character count, or the array's entry count |
| `TitleWithTags.FoundCategory` | src/components/tables/TitleWithTags.tsx:28-30 | `foundCategories` is defined exactly when some table entry's slug equals the key up to case, and is then such an entry |
| `TitleWithTags.ShownTags` | src/components/tables/TitleWithTags.tsx:31-59 | the shown tag texts: no more than the tags, at most one when slicing, none of them lower-casing to "none" |
| `TitleWithTags.SlicedTags` | src/components/tables/TitleWithTags.tsx:31 | with slicing on, the tags are `allTags.slice(0, 1)`, otherwise all tags |
| `TitleWithTags.IsShownTag` | src/components/tables/TitleWithTags.tsx:59 | the `filter` test: a tag is kept unless it lower-cases to "none" |
| `TitleWithTags.CategoryColor` | src/components/tables/TitleWithTags.tsx:44 | the category badge's palette index is `categories.length % 4`, in `[0, 4)` |
| `TitleWithTags.TagColor` | src/components/tables/TitleWithTags.tsx:65 | for `id >= 0` a tag's palette index is `(id + index) % 4`, in `[0, 4)` |
| `TitleWithTags.Render` | src/components/tables/TitleWithTags.tsx:16-80 | the cell keeps the title, shows the counter iff `length > 2` and slicing is on, shows no more tags than given (at most one when slicing) and none that is "none", and every palette index lies in `[0, 4)` |
| `TitleWithTags.CategoryBadgeIff` | src/components/tables/TitleWithTags.tsx:28-54 | a category badge is shown iff some table entry's slug equals the key up to case; it names the first such entry and takes palette index `categories.length % 4` |
| `TitleWithTags.TagBadges` | src/components/tables/TitleWithTags.tsx:58-73 | the badge at position `i` shows the `i`-th kept tag in palette index `(id + i) % 4` |
| `TitleWithTags.NoNoneShown` | src/components/tables/TitleWithTags.tsx:59 | no shown tag lower-cases to "none" |
| `TitleWithTags.SlicedShowsFirstTag` | src/components/tables/TitleWithTags.tsx:22-59 | with slicing on, the shown tags are `[allTags[0]]` when it is not "none" and `[]` otherwise, with no later tag taking its place |
| `TitleWithTags.UnslicedShowsAllButNone` | src/components/tables/TitleWithTags.tsx:31-59 | with slicing off, the shown tags are all tags in order without the "none" ones, each other tag as often as it occurs |
| `TitleWithTags.Overflow` | src/components/tables/TitleWithTags.tsx:80 | the counter is shown iff the `length` prop exceeds 2 and slicing is on, and then shows `length - 2 >= 1` |
| `TitleWithTags.ExampleNewsSports` | src/components/tables/TitleWithTags.tsx:31-80 | tags ["news", "sports", "none", "weather"] with length 4, sliced, show the one badge "news" and the counter +2 |

## Left out

- JSX layout, Chakra UI components, icons, styling and React `key` values: presentation only.
- `SelectBox` and `OnlySelectBox` (`./selectbox`) are not part of this model. They appear only as the callers of the handlers.
- React's `useState`: batched or asynchronous updates, and closures that see stale state. Each handler is one atomic step.
- `slugify`, `convertStringToArray`, `transcriptsCategories`, `tagColors` and `UI_CONFIG` are external. The first two are function parameters, the table is a list argument and the threshold is an integer argument; the colours themselves are not modelled.
- `JsText.LowerChar`: folds only the ASCII letters. JavaScript's `toLowerCase` and `toLocaleLowerCase` also fold other scripts, and some characters lower-case to more than one character. `toLocaleLowerCase`, which folds the key in `TitleWithTags.tsx:29`, also depends on the host locale: under a Turkish locale `I` folds to dotless `ı`, so the key `IT` would then fold to `ıt` and no longer match the slug `it`, whose `toLowerCase` ignores the locale. The model folds both sides the same locale-independent way.
- `JsText.IsSpace`: the space separators are Unicode's current Zs category, written out. A later Unicode version may add more.
- `TitleWithTags.CategoriesLength`: counts characters, where JavaScript's `length` counts UTF-16 code units. The two differ for characters outside the Basic Multilingual Plane.
- `TitleWithTags.TagColor`: requires `id >= 0`. JavaScript's `%` on a negative `id` gives a negative index, which is not modelled.
- `JsArray.Assign`: requires the index to be at most the list's length. Writing at the length appends; writing further past the end leaves holes in JavaScript, which a list of strings cannot hold. `SelectField.SelectField.HandleUpdateEdit` therefore requires an index no greater than the length when a non-blank draft is committed. The UI only commits the row it rendered.
- Numbers are modelled as integers. A fractional row index or `id` is not modelled.
