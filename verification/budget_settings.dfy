/** The budget-settings form: the list of category limits being edited,
    and the body it submits. Entries are the `categoryLimits` entries the
    settings call returns; a limit field being edited holds either the
    empty string or a number. */
module BudgetSettings {
  import opened Wrappers
  import Js
  import opened BudgetApi

  /** The category ids of the entries, in order. */
  function Ids(cls: seq<LimitEntry>): (r: seq<string>)
    ensures |r| == |cls|
    ensures forall i :: 0 <= i < |cls| ==> r[i] == cls[i].categoryId
  {
    seq(|cls|, i requires 0 <= i < |cls| => cls[i].categoryId)
  }

  predicate UniqueIds(cls: seq<LimitEntry>) {
    forall i, j :: 0 <= i < j < |cls| ==> cls[i].categoryId != cls[j].categoryId
  }

  /** `addCategoryLimit`: appends `{ categoryId, limit: 0 }` unless an
      entry for that id already exists. */
  function Add(cls: seq<LimitEntry>, categoryId: string): (r: seq<LimitEntry>)
    ensures categoryId in Ids(r)
    ensures categoryId in Ids(cls) ==> r == cls
    ensures categoryId !in Ids(cls) ==> r == cls + [LimitEntry(categoryId, Js.Num(Js.Finite(0.0)), map[])]
    ensures UniqueIds(cls) ==> UniqueIds(r)
  {
    if categoryId in Ids(cls) then cls
    else
      var r := cls + [LimitEntry(categoryId, Js.Num(Js.Finite(0.0)), map[])];
      assert Ids(r)[|cls|] == categoryId;
      r
  }

  /** `removeCategoryLimit`: keeps the entries of the other ids, in order. */
  function Remove(cls: seq<LimitEntry>, categoryId: string): (r: seq<LimitEntry>)
    ensures categoryId !in Ids(r)
    ensures |r| <= |cls|
    ensures forall e :: e in cls && e.categoryId != categoryId ==> e in r
    ensures forall e :: e in r ==> e in cls
    decreases |cls|
  {
    if |cls| == 0 then []
    else
      var init := Remove(cls[..|cls| - 1], categoryId);
      var last := cls[|cls| - 1];
      if last.categoryId != categoryId then init + [last] else init
  }

  /** Appending one entry keeps it exactly when its id differs. */
  lemma RemoveSnoc(cls: seq<LimitEntry>, e: LimitEntry, categoryId: string)
    ensures Remove(cls + [e], categoryId)
         == if e.categoryId != categoryId then Remove(cls, categoryId) + [e] else Remove(cls, categoryId)
  {
    assert (cls + [e])[..|cls|] == cls;
  }

  lemma RemoveAbsent(cls: seq<LimitEntry>, categoryId: string)
    requires categoryId !in Ids(cls)
    ensures Remove(cls, categoryId) == cls
  {
    forall e | e in cls ensures e.categoryId != categoryId {
      var i :| 0 <= i < |cls| && cls[i] == e;
      assert Ids(cls)[i] == e.categoryId;
    }
    RemoveNone(cls, categoryId);
  }

  lemma {:induction false} RemoveNone(cls: seq<LimitEntry>, categoryId: string)
    requires forall e :: e in cls ==> e.categoryId != categoryId
    ensures Remove(cls, categoryId) == cls
    decreases |cls|
  {
    if |cls| > 0 {
      var init, last := cls[..|cls| - 1], cls[|cls| - 1];
      assert cls == init + [last];
      RemoveNone(init, categoryId);
      RemoveSnoc(init, last, categoryId);
    }
  }

  /** Removing an id just added gives back the list as it was. */
  lemma RemoveUndoesAdd(cls: seq<LimitEntry>, categoryId: string)
    requires categoryId !in Ids(cls)
    ensures Remove(Add(cls, categoryId), categoryId) == cls
  {
    var r := Add(cls, categoryId);
    assert r[..|r| - 1] == cls;
    RemoveAbsent(cls, categoryId);
  }

  /** Removing works entry by entry: it distributes over concatenation,
      so the kept entries stay in their relative order. */
  lemma {:induction false} RemoveDistributes(a: seq<LimitEntry>, b: seq<LimitEntry>, categoryId: string)
    ensures Remove(a + b, categoryId) == Remove(a, categoryId) + Remove(b, categoryId)
    decreases |b|
  {
    if |b| == 0 {
      assert a + b == a;
    } else {
      var b' := b[..|b| - 1];
      assert (a + b)[..|a + b| - 1] == a + b';
      RemoveDistributes(a, b', categoryId);
    }
  }

  /** The value an edited limit field takes: `''` stays `''`, anything
      else becomes `Number(input)`. */
  function Entered(input: string, parse: string -> Js.Number): (v: Js.Value)
    ensures input == "" ==> v == Js.Str("")
    ensures input != "" ==> v.Num?
  {
    if input == "" then Js.Str("") else Js.Num(Js.ToNumber(Js.Str(input), parse))
  }

  /** `handleCategoryLimitChange`: sets the limit of the entries with that
      id and leaves everything else alone. */
  function Change(cls: seq<LimitEntry>, categoryId: string, input: string, parse: string -> Js.Number): (r: seq<LimitEntry>)
    ensures |r| == |cls| && Ids(r) == Ids(cls)
    ensures forall i :: 0 <= i < |cls| ==>
      r[i] == if cls[i].categoryId == categoryId then cls[i].(limit := Entered(input, parse)) else cls[i]
  {
    seq(|cls|, i requires 0 <= i < |cls| =>
      if cls[i].categoryId == categoryId then cls[i].(limit := Entered(input, parse)) else cls[i])
  }

  /** `handleSubmit`'s argument: `Number` of the monthly limit and of each
      entry's limit, with only `categoryId` and `limit` kept per entry. */
  function SubmitBody(monthlyLimit: Js.Value, cls: seq<LimitEntry>, parse: string -> Js.Number): (r: SettingsDoc)
    ensures r.monthlyLimit == Js.Num(Js.ToNumber(monthlyLimit, parse))
    ensures r.categoryLimits.Some? && Ids(r.categoryLimits.value) == Ids(cls)
    ensures forall i :: 0 <= i < |cls| ==>
      r.categoryLimits.value[i] == LimitEntry(cls[i].categoryId, Js.Num(Js.ToNumber(cls[i].limit, parse)), map[])
  {
    SettingsDoc(
      Js.Num(Js.ToNumber(monthlyLimit, parse)),
      Some(seq(|cls|, i requires 0 <= i < |cls| =>
        LimitEntry(cls[i].categoryId, Js.Num(Js.ToNumber(cls[i].limit, parse)), map[]))),
      map[])
  }

  /** What reaches the server: the ids in the form's order, a cleared
      field as 0, and every other limit as `Number(limit) || 0`. */
  lemma Submitted(monthlyLimit: Js.Value, cls: seq<LimitEntry>, parse: string -> Js.Number)
    ensures var posted := Update(SubmitBody(monthlyLimit, cls, parse), parse);
            && Ids(posted.categoryLimits.value) == Ids(cls)
            && forall i :: 0 <= i < |cls| ==>
                 && posted.categoryLimits.value[i].rest == map[]
                 && (cls[i].limit == Js.Str("") ==> posted.categoryLimits.value[i].limit == Js.Num(Js.Finite(0.0)))
                 && posted.categoryLimits.value[i].limit == Js.Num(Js.NumberOrZero(cls[i].limit, parse))
  {
    var body := SubmitBody(monthlyLimit, cls, parse);
    var posted := Update(body, parse);
    forall i | 0 <= i < |cls|
      ensures posted.categoryLimits.value[i].limit == Js.Num(Js.NumberOrZero(cls[i].limit, parse))
    {
      assert body.categoryLimits.value[i].limit == Js.Num(Js.ToNumber(cls[i].limit, parse));
    }
  }
}
