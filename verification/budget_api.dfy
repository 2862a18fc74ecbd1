/** The client's budget-settings calls: the response of `get` and the body
    `update` posts are both sanitised so that every limit is a number,
    `Number(x) || 0`. A document is kept as its two known fields plus the
    remaining fields, which the spread `...` copies untouched. */
module BudgetApi {
  import opened Wrappers
  import Js

  /** One `categoryLimits` entry: its `categoryId`, its `limit`, and every
      other field it carries. */
  datatype LimitEntry = LimitEntry(categoryId: string, limit: Js.Value, rest: map<string, Js.Value>)

  /** A settings document; `categoryLimits` is `None` when it is missing
      or null. */
  datatype SettingsDoc = SettingsDoc(
    monthlyLimit: Js.Value,
    categoryLimits: Option<seq<LimitEntry>>,
    rest: map<string, Js.Value>)

  function Sanitize(v: Js.Value, parse: string -> Js.Number): Js.Value {
    Js.Num(Js.NumberOrZero(v, parse))
  }

  /** `{ ...cl, limit: Number(cl.limit) || 0 }`. */
  function SanitizeEntry(cl: LimitEntry, parse: string -> Js.Number): LimitEntry {
    cl.(limit := Sanitize(cl.limit, parse))
  }

  /** `categoryLimits?.map(…) || []`. */
  function SanitizeLimits(cls: Option<seq<LimitEntry>>, parse: string -> Js.Number): (r: seq<LimitEntry>)
    ensures cls.None? ==> r == []
    ensures cls.Some? ==> |r| == |cls.value|
    ensures cls.Some? ==> forall i :: 0 <= i < |r| ==>
      r[i].categoryId == cls.value[i].categoryId && r[i].rest == cls.value[i].rest
      && r[i].limit == Js.Num(Js.NumberOrZero(cls.value[i].limit, parse))
  {
    match cls
    case None => []
    case Some(xs) => seq(|xs|, i requires 0 <= i < |xs| => SanitizeEntry(xs[i], parse))
  }

  /** A limit that is already the result of sanitising. */
  predicate Clean(v: Js.Value) {
    v.Num? && (Js.Truthy(v.n) || v.n == Js.Finite(0.0))
  }

  predicate CleanDoc(d: SettingsDoc) {
    && Clean(d.monthlyLimit)
    && d.categoryLimits.Some?
    && forall i :: 0 <= i < |d.categoryLimits.value| ==> Clean(d.categoryLimits.value[i].limit)
  }

  /** `budgetSettings.get`: the response with both limits sanitised and
      every other field kept; a null response reads as an empty one. */
  function Get(data: Option<SettingsDoc>, parse: string -> Js.Number): (r: SettingsDoc)
    ensures CleanDoc(r)
    ensures data.None? ==> r == SettingsDoc(Js.Num(Js.Finite(0.0)), Some([]), map[])
    ensures data.Some? ==> r.rest == data.value.rest
    ensures data.Some? ==> r.monthlyLimit == Js.Num(Js.NumberOrZero(data.value.monthlyLimit, parse))
    ensures data.Some? ==> r.categoryLimits == Some(SanitizeLimits(data.value.categoryLimits, parse))
  {
    match data
    case None => SettingsDoc(Js.Num(Js.Finite(0.0)), Some([]), map[])
    case Some(d) =>
      SettingsDoc(Sanitize(d.monthlyLimit, parse), Some(SanitizeLimits(d.categoryLimits, parse)), d.rest)
  }

  /** `budgetSettings.update`: the posted body holds the two sanitised
      fields and nothing else. */
  function Update(data: SettingsDoc, parse: string -> Js.Number): (r: SettingsDoc)
    ensures CleanDoc(r)
    ensures r.rest == map[]
    ensures r.monthlyLimit == Js.Num(Js.NumberOrZero(data.monthlyLimit, parse))
    ensures r.categoryLimits == Some(SanitizeLimits(data.categoryLimits, parse))
  {
    SettingsDoc(Sanitize(data.monthlyLimit, parse), Some(SanitizeLimits(data.categoryLimits, parse)), map[])
  }

  /** Sanitising a clean value changes nothing. */
  lemma CleanFixed(v: Js.Value, parse: string -> Js.Number)
    requires Clean(v)
    ensures Sanitize(v, parse) == v
  {
  }

  lemma SanitizeLimitsFixed(cls: seq<LimitEntry>, parse: string -> Js.Number)
    requires forall i :: 0 <= i < |cls| ==> Clean(cls[i].limit)
    ensures SanitizeLimits(Some(cls), parse) == cls
  {
    var r := SanitizeLimits(Some(cls), parse);
    forall i | 0 <= i < |cls| ensures r[i] == cls[i] {
      CleanFixed(cls[i].limit, parse);
    }
  }

  /** Sanitising is idempotent: re-reading a sanitised response and
      re-posting a sanitised body change nothing. */
  lemma Idempotent(data: Option<SettingsDoc>, body: SettingsDoc, parse: string -> Js.Number)
    ensures Get(Some(Get(data, parse)), parse) == Get(data, parse)
    ensures Update(Update(body, parse), parse) == Update(body, parse)
  {
    var g := Get(data, parse);
    SanitizeLimitsFixed(g.categoryLimits.value, parse);
    CleanFixed(g.monthlyLimit, parse);
    var u := Update(body, parse);
    SanitizeLimitsFixed(u.categoryLimits.value, parse);
    CleanFixed(u.monthlyLimit, parse);
  }

  /** The posted body is the sanitised read of the same document with its
      other fields dropped. */
  lemma UpdateIsGetWithoutRest(data: SettingsDoc, parse: string -> Js.Number)
    ensures Update(data, parse) == Get(Some(data), parse).(rest := map[])
  {
  }
}
