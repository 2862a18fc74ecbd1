/** The category form of the client: its initial state, and the editing of
    the subcategory list through a separate text input. */
module CategoryForm {
  import opened Wrappers
  import opened Text

  /** The fields of the record being edited, as far as the form reads them. */
  datatype EditData = EditData(name: Option<string>, description: Option<string>, subcategories: Option<seq<string>>)

  datatype FormData = FormData(name: string, description: string, subcategories: seq<string>)

  /** The form data plus the text of the "new subcategory" input. */
  datatype Form = Form(data: FormData, pending: string)

  /** `useState({ name: editData?.name || '', … })`: the record's fields
      when there is one, with `''`, `''` and `[]` for what is missing. The
      input starts empty. */
  function Initial(editData: Option<EditData>): (f: Form)
    ensures f.pending == ""
    ensures editData.None? ==> f.data == FormData("", "", [])
    ensures editData.Some? ==> f.data.subcategories == editData.value.subcategories.GetOr([])
    ensures editData.Some? ==> f.data.name == editData.value.name.GetOr("")
    ensures editData.Some? ==> f.data.description == editData.value.description.GetOr("")
  {
    match editData
    case None => Form(FormData("", "", []), "")
    case Some(e) => Form(FormData(e.name.GetOr(""), e.description.GetOr(""), e.subcategories.GetOr([])), "")
  }

  /** `addSubcategory`: when the input holds more than whitespace, its
      trimmed text is appended and the input is cleared; otherwise
      nothing changes. */
  function AddSubcategory(f: Form): (r: Form)
    ensures AllSpace(f.pending) ==> r == f
    ensures !AllSpace(f.pending) ==>
      && r.pending == ""
      && r.data == f.data.(subcategories := f.data.subcategories + [Trim(f.pending)])
  {
    TrimEmptyIffBlank(f.pending);
    if Trim(f.pending) != "" then
      Form(f.data.(subcategories := f.data.subcategories + [Trim(f.pending)]), "")
    else f
  }

  /** What `addSubcategory` appends is never blank and is its own trim. */
  lemma AddedIsTrimmed(f: Form)
    requires !AllSpace(f.pending)
    ensures var s := AddSubcategory(f).data.subcategories;
            && !AllSpace(s[|s| - 1])
            && Trim(s[|s| - 1]) == s[|s| - 1]
  {
    TrimEmptyIffBlank(f.pending);
    TrimIdempotent(f.pending);
    TrimEmptyIffBlank(Trim(f.pending));
  }

  /** `filter((_, i) => i !== index)`, one element at a time. */
  function RemoveAt<T>(s: seq<T>, index: int): (r: seq<T>)
    ensures |r| == if 0 <= index < |s| then |s| - 1 else |s|
    decreases |s|
  {
    if |s| == 0 then []
    else RemoveAt(s[..|s| - 1], index) + (if |s| - 1 != index then [s[|s| - 1]] else [])
  }

  /** Removing an index cuts exactly that element out, and an index outside
      the list removes nothing. */
  lemma {:induction false} RemoveAtSlices<T>(s: seq<T>, index: int)
    ensures 0 <= index < |s| ==> RemoveAt(s, index) == s[..index] + s[index + 1..]
    ensures !(0 <= index < |s|) ==> RemoveAt(s, index) == s
    decreases |s|
  {
    if |s| > 0 {
      var init := s[..|s| - 1];
      RemoveAtSlices(init, index);
      if index == |s| - 1 {
        RemoveAtOutside(init, index);
        assert s[..index] == init;
        assert s[index + 1..] == [];
      } else if 0 <= index < |s| - 1 {
        assert init[..index] == s[..index];
        assert init[index + 1..] + [s[|s| - 1]] == s[index + 1..];
      } else {
        assert init + [s[|s| - 1]] == s;
      }
    }
  }

  lemma {:induction false} RemoveAtOutside<T>(s: seq<T>, index: int)
    requires index >= |s|
    ensures RemoveAt(s, index) == s
    decreases |s|
  {
    if |s| > 0 {
      RemoveAtOutside(s[..|s| - 1], index);
      assert s[..|s| - 1] + [s[|s| - 1]] == s;
    }
  }

  /** `removeSubcategory(index)`: the entry at `index` is cut out of the
      list, an index outside it removes nothing, and nothing else changes. */
  function RemoveSubcategory(f: Form, index: int): (r: Form)
    ensures r.pending == f.pending && r.data.name == f.data.name && r.data.description == f.data.description
    ensures 0 <= index < |f.data.subcategories| ==>
      r.data.subcategories == f.data.subcategories[..index] + f.data.subcategories[index + 1..]
    ensures !(0 <= index < |f.data.subcategories|) ==> r.data.subcategories == f.data.subcategories
  {
    RemoveAtSlices(f.data.subcategories, index);
    f.(data := f.data.(subcategories := RemoveAt(f.data.subcategories, index)))
  }

  /** Removing the entry just added restores the list. */
  lemma RemoveUndoesAdd(f: Form)
    requires !AllSpace(f.pending)
    ensures RemoveSubcategory(AddSubcategory(f), |f.data.subcategories|).data == f.data
  {
    var s := AddSubcategory(f).data.subcategories;
    RemoveAtSlices(s, |f.data.subcategories|);
    assert s[..|f.data.subcategories|] == f.data.subcategories;
  }
}
