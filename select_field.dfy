/**
 * The editable list field `SelectField`: rows of strings, each of which can
 * be opened in an inline editor, plus a "new row" editor. The component owns
 * only its editing state (`isNew` and `editState`); the list belongs to the
 * parent, which receives every new list through `updateData` and renders the
 * field again with it.
 *
 * Each handler is one atomic step. The pure functions below give the step's
 * effect on the editing state and on the list; the class `SelectField`
 * performs the steps and is proved against them.
 */
module SelectField {
  import opened Wrappers
  import opened JsText
  import JsArray

  /** An entry of the suggestion catalog. */
  datatype AutoCompleteData = AutoCompleteData(slug: string, value: string)

  /** The open editor: the row it edits (`-1`: none), its draft, and the suggestion last picked. */
  datatype EditState = EditState(idx: int, value: string, autoCompleteValue: string)

  /** The row index that stands for "no row". */
  const NoRow: int := -1

  const InitialEditState := EditState(NoRow, "", "")

  /** The action name an editor passes to cancel instead of commit. */
  const CancelAction: string := "cancel"

  /** The component's own state: whether the new-row editor is open, and the row editor. */
  datatype Session = Session(isNew: bool, editState: EditState)

  const InitialSession := Session(false, InitialEditState)

  /** At most one editor is open: the new-row editor never coexists with a row editor. */
  predicate SingleEditor(s: Session)
  {
    s.isNew ==> s.editState.idx == NoRow
  }

  /** `editedData[i] ?? ""`: the row's text, or the empty string off the list. */
  function RowText(rows: seq<string>, i: int): (r: string)
    ensures 0 <= i < |rows| ==> r == rows[i]
    ensures !(0 <= i < |rows|) ==> r == ""
  {
    if 0 <= i < |rows| then rows[i] else ""
  }

  /** `handleInputChange`: free typing replaces the draft and forgets the picked suggestion. */
  function InputChanged(st: EditState, input: string): (r: EditState)
    ensures r.idx == st.idx
    ensures r.value == input && r.autoCompleteValue == ""
  {
    st.(value := input, autoCompleteValue := "")
  }

  /** `handleAutoCompleteSelect`: picking a suggestion makes it the draft. */
  function AutoCompleteSelected(st: EditState, data: AutoCompleteData): (r: EditState)
    ensures r.idx == st.idx
    ensures r.value == data.value && r.autoCompleteValue == data.value
  {
    st.(value := data.value, autoCompleteValue := data.value)
  }

  /**
   * `toggleEdit(i)` with `rows` the list the handler sees: closes the editor
   * when it is already on row `i`, otherwise moves it to row `i` seeded with
   * that row's text; opening a real row closes the new-row editor.
   */
  function Toggled(s: Session, i: int, rows: seq<string>): (r: Session)
    ensures SingleEditor(s) ==> SingleEditor(r)
    ensures i != NoRow ==> !r.isNew
  {
    var isNew := if i != NoRow && s.isNew then false else s.isNew;
    if s.editState.idx == i then Session(isNew, InitialEditState)
    else Session(isNew, s.editState.(idx := i, value := RowText(rows, i)))
  }

  /** `addNewSpeaker`: closes any row editor and opens the new-row editor with an empty draft. */
  function AddedNew(s: Session, rows: seq<string>): (r: Session)
    ensures r.isNew && SingleEditor(r)
    ensures r.editState.value == ""
  {
    Toggled(s, NoRow, rows).(isNew := true)
  }

  /** The list `handleUpdateEdit` commits: a blank draft deletes the row, any other replaces it. */
  function EditedRows(rows: seq<string>, idx: int, draft: string): (r: seq<string>)
    requires !IsBlank(draft) ==> idx <= |rows|
    ensures IsBlank(draft) && 0 <= idx < |rows| ==>
      |r| == |rows| - 1 && r[..idx] == rows[..idx] && r[idx..] == rows[idx + 1..]
    ensures !IsBlank(draft) && 0 <= idx < |rows| ==>
      |r| == |rows| && r[idx] == draft && forall k :: 0 <= k < |rows| && k != idx ==> r[k] == rows[k]
    ensures !IsBlank(draft) && idx == |rows| ==> r == rows + [draft]
  {
    if IsBlank(draft) then JsArray.Splice1(rows, idx) else JsArray.Assign(rows, idx, draft)
  }

  /**
   * The list `handleNewSpeaker` passes to `updateData`, or `None` when it
   * does not call it: on cancel and when the draft is empty (untrimmed).
   */
  function NewRows(rows: seq<string>, action: string, draft: string): (r: Option<seq<string>>)
    ensures r.Some? <==> action != CancelAction && |draft| > 0
    ensures r.Some? ==> |r.value| == |rows| + 1 && r.value[..|rows|] == rows && r.value[|rows|] == draft
  {
    if action == CancelAction then None
    else if draft == "" then None
    else Some(rows + [draft])
  }

  /** Toggling a row that is closed opens it with the row's text and keeps the picked suggestion. */
  lemma ToggleOpens(s: Session, i: int, rows: seq<string>)
    requires s.editState.idx != i
    ensures Toggled(s, i, rows).editState == EditState(i, RowText(rows, i), s.editState.autoCompleteValue)
  {
  }

  /** Toggling the open row closes it. */
  lemma ToggleCloses(s: Session, i: int, rows: seq<string>)
    requires s.editState.idx == i
    ensures Toggled(s, i, rows).editState == InitialEditState
    ensures Toggled(s, i, rows).isNew == (s.isNew && i == NoRow)
  {
  }

  /** Toggling a closed row twice returns to the initial state. */
  lemma ToggleTwiceIsInitial(s: Session, i: int, rows: seq<string>)
    requires SingleEditor(s) && s.editState.idx != i
    ensures Toggled(Toggled(s, i, rows), i, rows) == InitialSession
  {
  }

  /** A blank commit on a row of the list deletes exactly that row. */
  lemma BlankCommitDeletesRow(rows: seq<string>, idx: int, draft: string)
    requires IsBlank(draft) && 0 <= idx < |rows|
    ensures |EditedRows(rows, idx, draft)| == |rows| - 1
    ensures EditedRows(rows, idx, draft) == rows[..idx] + rows[idx + 1..]
  {
  }

  /** A commit with text on a row of the list replaces exactly that row. */
  lemma FilledCommitReplacesRow(rows: seq<string>, idx: int, draft: string)
    requires !IsBlank(draft) && 0 <= idx < |rows|
    ensures EditedRows(rows, idx, draft) == rows[idx := draft]
  {
  }

  /**
   * Opening a closed row, clearing its draft and committing deletes that row
   * and leaves no editor open.
   */
  lemma EditBlankCommitScenario(s: Session, rows: seq<string>, i: int)
    requires SingleEditor(s) && s.editState.idx != i && 0 <= i < |rows|
    ensures
      var s1 := Toggled(s, i, rows);
      var typed := Session(s1.isNew, InputChanged(s1.editState, ""));
      && EditedRows(rows, typed.editState.idx, typed.editState.value) == rows[..i] + rows[i + 1..]
      && Toggled(typed, i, rows) == InitialSession
  {
  }

  /** Picking a suggestion in an open row and committing writes the suggestion into that row. */
  lemma PickCommitScenario(s: Session, rows: seq<string>, i: int, data: AutoCompleteData)
    requires s.editState.idx == i && 0 <= i < |rows| && !IsBlank(data.value)
    ensures
      var picked := AutoCompleteSelected(s.editState, data);
      EditedRows(rows, picked.idx, picked.value) == rows[i := data.value]
  {
  }

  /** Opening the new-row editor and committing without typing calls no `updateData`. */
  lemma AddEmptyCommitScenario(s: Session, rows: seq<string>)
    ensures NewRows(rows, "", AddedNew(s, rows).editState.value) == None
  {
  }

  /** Editing row 1 of ["Alice", "Bob"] to "Bea" gives ["Alice", "Bea"]. */
  lemma ExampleRename()
    ensures EditedRows(["Alice", "Bob"], 1, "Bea") == ["Alice", "Bea"]
  {
    assert !IsSpace("Bea"[0]);
  }

  /**
   * The component. `list` is the parent's `editedData`; `updates` records
   * every list passed to `updateData`, in order, and the parent renders the
   * field again with the last of them.
   */
  class SelectField {
    var isNew: bool
    var editState: EditState
    var list: seq<string>
    var updates: seq<seq<string>>

    /** The component's invariant: at most one editor is open. */
    ghost predicate Valid()
      reads this
    {
      SingleEditor(Session(isNew, editState))
    }

    /** The component's own state as a value. */
    function CurrentSession(): (s: Session)
      reads this
    {
      Session(isNew, editState)
    }

    constructor (editedData: seq<string>)
      ensures Valid()
      ensures CurrentSession() == InitialSession
      ensures list == editedData && updates == []
    {
      isNew := false;
      editState := InitialEditState;
      list := editedData;
      updates := [];
    }

    /** The parent's `updateData` callback. */
    method UpdateData(newList: seq<string>)
      modifies this`list, this`updates
      ensures list == newList && updates == old(updates) + [newList]
    {
      updates := updates + [newList];
      list := newList;
    }

    method HandleInputChange(input: string)
      requires Valid()
      modifies this`editState
      ensures Valid()
      ensures editState == InputChanged(old(editState), input)
    {
      editState := editState.(value := input, autoCompleteValue := "");
    }

    method HandleAutoCompleteSelect(data: AutoCompleteData)
      requires Valid()
      modifies this`editState
      ensures Valid()
      ensures editState == AutoCompleteSelected(old(editState), data)
    {
      editState := editState.(value := data.value, autoCompleteValue := data.value);
    }

    /** `toggleEdit(i)` as run by a handler that sees the list `rows`. */
    method Toggle(i: int, rows: seq<string>)
      requires Valid()
      modifies this`isNew, this`editState
      ensures Valid()
      ensures CurrentSession() == Toggled(old(CurrentSession()), i, rows)
    {
      if i != NoRow && isNew {
        isNew := false;
      }
      if editState.idx == i {
        editState := InitialEditState;
      } else {
        editState := editState.(idx := i, value := if 0 <= i < |rows| then rows[i] else "");
      }
    }

    /** The `toggleEdit` handler the row's pencil button calls. */
    method ToggleEdit(i: int)
      requires Valid()
      modifies this`isNew, this`editState
      ensures Valid()
      ensures CurrentSession() == Toggled(old(CurrentSession()), i, list)
    {
      Toggle(i, list);
    }

    /**
     * `handleUpdateEdit(idx, name)`: on cancel only toggles the editor;
     * otherwise commits the draft to row `idx` through `updateData`, then
     * toggles with the list as the handler saw it.
     */
    method HandleUpdateEdit(idx: int, name: string)
      requires Valid()
      requires name != CancelAction && !IsBlank(editState.value) ==> idx <= |list|
      modifies this
      ensures Valid()
      ensures name == CancelAction ==> list == old(list) && updates == old(updates)
      ensures name != CancelAction ==>
        && list == EditedRows(old(list), idx, old(editState.value))
        && updates == old(updates) + [list]
      ensures CurrentSession() == Toggled(old(CurrentSession()), idx, old(list))
      ensures old(editState.idx) == idx ==> editState == InitialEditState
    {
      var rows := list;
      if name == CancelAction {
        Toggle(idx, rows);
        return;
      }
      var updated := rows;
      if IsBlank(editState.value) {
        updated := JsArray.Splice1(updated, idx);
      } else {
        updated := JsArray.Assign(updated, idx, editState.value);
      }
      UpdateData(updated);
      Toggle(idx, rows);
    }

    /**
     * `handleNewSpeaker(idx, name)`: closes the new-row editor; unless it was
     * cancelled or the draft is empty, appends the draft through `updateData`.
     * The draft itself is left as it was.
     */
    method HandleNewSpeaker(idx: int, name: string)
      requires Valid()
      modifies this
      ensures Valid()
      ensures !isNew && editState == old(editState)
      ensures NewRows(old(list), name, old(editState.value)).Some? ==>
        list == NewRows(old(list), name, old(editState.value)).value && updates == old(updates) + [list]
      ensures NewRows(old(list), name, old(editState.value)).None? ==>
        list == old(list) && updates == old(updates)
    {
      isNew := false;
      if name == CancelAction {
        return;
      }
      var updated := list;
      if editState.value == "" {
        return;
      } else {
        updated := updated + [editState.value];
      }
      UpdateData(updated);
    }

    /** `addNewSpeaker`: `toggleEdit(-1)`, then open the new-row editor. */
    method AddNewSpeaker()
      requires Valid()
      modifies this`isNew, this`editState
      ensures Valid()
      ensures CurrentSession() == AddedNew(old(CurrentSession()), list)
    {
      Toggle(NoRow, list);
      isNew := true;
    }
  }

  /**
   * A parent driving the component: rename row 1 of ["Alice", "Bob"] to
   * "Bea", then open the new row and commit it without typing.
   */
  method ExampleSession() returns (final: seq<string>, sent: nat)
    ensures final == ["Alice", "Bea"] && sent == 1
  {
    var field := new SelectField(["Alice", "Bob"]);
    field.ToggleEdit(1);
    assert field.editState == EditState(1, "Bob", "");
    field.HandleInputChange("Bea");
    field.HandleUpdateEdit(1, "");
    ExampleRename();
    assert field.list == ["Alice", "Bea"];
    assert field.CurrentSession() == InitialSession;
    field.AddNewSpeaker();
    field.HandleNewSpeaker(NoRow, "");
    assert field.list == ["Alice", "Bea"] && |field.updates| == 1;
    assert !field.isNew;
    final, sent := field.list, |field.updates|;
  }

  /**
   * For any list and any non-empty `x`: opening the new row, typing `x` and
   * committing hands `updateData` the list with `x` appended, once.
   */
  method AddTypeCommitScenario(rows: seq<string>, x: string) returns (result: seq<string>, sent: nat)
    requires x != ""
    ensures result == rows + [x] && sent == 1
  {
    var field := new SelectField(rows);
    field.AddNewSpeaker();
    field.HandleInputChange(x);
    field.HandleNewSpeaker(NoRow, "");
    result, sent := field.list, |field.updates|;
  }
}
