/** The earlier category form (the prototype pages' copy): the list of
    subcategory inputs starts with one empty row, rows are added, edited
    and removed in place, and blank rows are dropped on submit. */
module PrototypeForm {
  import opened Text
  import CategoryForm

  const INITIAL: seq<string> := [""]

  /** `addSubcategory`: one more, empty, row. */
  function AddRow(s: seq<string>): (r: seq<string>)
    ensures |r| == |s| + 1 && r[..|s|] == s && r[|s|] == ""
  {
    s + [""]
  }

  /** `updateSubcategory(index, value)`: row `index` takes the new text. */
  function UpdateRow(s: seq<string>, index: nat, value: string): (r: seq<string>)
    requires index < |s|
    ensures |r| == |s| && r[index] == value
    ensures forall i :: 0 <= i < |s| && i != index ==> r[i] == s[i]
  {
    s[index := value]
  }

  /** `removeSubcategory(index)`. */
  function RemoveRow(s: seq<string>, index: int): (r: seq<string>)
    ensures 0 <= index < |s| ==> r == s[..index] + s[index + 1..]
    ensures !(0 <= index < |s|) ==> r == s
  {
    CategoryForm.RemoveAtSlices(s, index);
    CategoryForm.RemoveAt(s, index)
  }

  /** `filter(sub => sub.trim() !== '')`: the rows that hold more than
      whitespace, in order. */
  function NonBlank(s: seq<string>): (r: seq<string>)
    ensures |r| <= |s|
    ensures forall i :: 0 <= i < |r| ==> !AllSpace(r[i]) && r[i] in s
    ensures forall x :: x in s && !AllSpace(x) ==> x in r
    decreases |s|
  {
    if |s| == 0 then []
    else
      var init := NonBlank(s[..|s| - 1]);
      var last := s[|s| - 1];
      TrimEmptyIffBlank(last);
      if Trim(last) != "" then init + [last] else init
  }

  /** The submitted list drops rows entry by entry, so it keeps the
      order of the rows it keeps. */
  lemma {:induction false} NonBlankDistributes(a: seq<string>, b: seq<string>)
    ensures NonBlank(a + b) == NonBlank(a) + NonBlank(b)
    decreases |b|
  {
    if |b| == 0 {
      assert a + b == a;
    } else {
      var b' := b[..|b| - 1];
      assert (a + b)[..|a + b| - 1] == a + b';
      NonBlankDistributes(a, b');
    }
  }

  /** Appending one row adds it to the submitted list exactly when it is not blank. */
  lemma NonBlankSnoc(s: seq<string>, x: string)
    ensures NonBlank(s + [x]) == if Trim(x) != "" then NonBlank(s) + [x] else NonBlank(s)
  {
    assert (s + [x])[..|s|] == s;
  }

  /** A list without blank rows is submitted as it is, so filtering
      twice is filtering once. */
  lemma {:induction false} NonBlankKeepsClean(s: seq<string>)
    requires forall i :: 0 <= i < |s| ==> !AllSpace(s[i])
    ensures NonBlank(s) == s
    decreases |s|
  {
    if |s| > 0 {
      var init, last := s[..|s| - 1], s[|s| - 1];
      assert forall i :: 0 <= i < |init| ==> init[i] == s[i];
      NonBlankKeepsClean(init);
      assert s == init + [last];
      NonBlankSnoc(init, last);
      TrimEmptyIffBlank(last);
    }
  }

  lemma NonBlankIdempotent(s: seq<string>)
    ensures NonBlank(NonBlank(s)) == NonBlank(s)
  {
    NonBlankKeepsClean(NonBlank(s));
  }

  /** The form as first shown submits no subcategories, and neither does
      any number of untouched added rows. */
  lemma {:induction false} UntouchedRowsSubmitNothing(n: nat)
    ensures NonBlank(seq(n + 1, i => "")) == []
    decreases n
  {
    assert AllSpace("");
    if n > 0 {
      assert seq(n + 1, i => "") == seq(n, i => "") + [""];
      UntouchedRowsSubmitNothing(n - 1);
    }
  }
}
