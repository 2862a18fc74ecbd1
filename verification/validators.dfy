/** The request validation that runs before the transaction and category
    handlers, written as predicates over the request body. express-validator
    sees every field as a string: a missing field is the empty string. The
    sanitisers in the chains (`trim`) rewrite the body the handler then
    receives. */
module Validators {
  import opened Wrappers
  import Text
  import Views
  import opened Ledger
  import TransactionController
  import CategoryController

  // ---------------------------------------------------------------------
  // Decimal strings

  predicate IsDigit(c: char) { '0' <= c <= '9' }

  predicate AllDigits(s: string) {
    forall i :: 0 <= i < |s| ==> IsDigit(s[i])
  }

  /** The value of a run of decimal digits. */
  function DigitsValue(s: string): nat
    requires AllDigits(s)
    decreases |s|
  {
    if |s| == 0 then 0 else DigitsValue(s[..|s| - 1]) * 10 + (s[|s| - 1] as int - '0' as int)
  }

  function Pow10(n: nat): (r: nat)
    ensures r >= 1
  {
    if n == 0 then 1 else 10 * Pow10(n - 1)
  }

  predicate HasSign(s: string) { |s| > 0 && (s[0] == '+' || s[0] == '-') }

  /** `s` without its leading sign, if any. */
  function Unsigned(s: string): string {
    if HasSign(s) then s[1..] else s
  }

  /** Index of the first '.', or `|b|` when there is none. */
  function DotIndex(b: string): (r: nat)
    ensures r <= |b|
    ensures r < |b| ==> b[r] == '.'
    ensures forall i :: 0 <= i < r ==> b[i] != '.'
    decreases |b|
  {
    if |b| == 0 || b[0] == '.' then 0 else 1 + DotIndex(b[1..])
  }

  /** validator.js `isNumeric` with default options, the pattern
      `[+-]?([0-9]*[.])?[0-9]+` over the whole string: digits before an
      optional point, at least one digit after it. */
  predicate IsNumeric(s: string) {
    var b := Unsigned(s);
    var d := DotIndex(b);
    AllDigits(b[..d]) && (if d == |b| then |b| > 0 else d + 1 < |b| && AllDigits(b[d + 1..]))
  }

  /** The value of fraction digits `fp` written after a point. */
  function FracValue(fp: string): real
    requires AllDigits(fp)
  {
    if fp == "" then 0.0 else DigitsValue(fp) as real / Pow10(|fp|) as real
  }

  /** The absolute value a numeric string denotes. */
  function Magnitude(s: string): (r: real)
    requires IsNumeric(s)
    ensures r >= 0.0
  {
    var b := Unsigned(s);
    var d := DotIndex(b);
    DigitsValue(b[..d]) as real
      + (if d == |b| then 0.0 else FracValue(b[d + 1..]))
  }

  /** What `Number(s)` (and so `Math.abs`) gives for a numeric string. */
  function DecimalValue(s: string): real
    requires IsNumeric(s)
  {
    if |s| > 0 && s[0] == '-' then -Magnitude(s) else Magnitude(s)
  }

  /** The decimal string with sign `sign`, integer digits `ip` and, when
      `fp` is not empty, a point and fraction digits `fp`. */
  function Decimal(sign: string, ip: string, fp: string): string {
    sign + ip + (if fp == "" then "" else "." + fp)
  }

  /** A numeric string is never empty. */
  lemma NumericNonEmpty(s: string)
    requires IsNumeric(s)
    ensures s != ""
  {
  }

  lemma UnsignedDecimal(sign: string, b: string)
    requires sign == "" || sign == "+" || sign == "-"
    requires b != "" && (IsDigit(b[0]) || b[0] == '.')
    ensures Unsigned(sign + b) == b
  {
    if sign == "" {
      assert sign + b == b;
    } else {
      assert (sign + b)[0] == sign[0] && (sign + b)[1..] == b;
    }
  }

  lemma {:induction false} DotAfterDigits(ip: string, rest: string)
    requires AllDigits(ip) && (rest == "" || rest[0] == '.')
    ensures DotIndex(ip + rest) == |ip|
    decreases |ip|
  {
    if ip == "" {
      assert ip + rest == rest;
    } else {
      assert IsDigit(ip[0]);
      assert (ip + rest)[1..] == ip[1..] + rest;
      DotAfterDigits(ip[1..], rest);
    }
  }

  /** The parts of a decimal string as the parser sees them. */
  lemma DecimalParts(sign: string, ip: string, fp: string)
    requires sign == "" || sign == "+" || sign == "-"
    requires AllDigits(ip) && AllDigits(fp) && (ip != "" || fp != "")
    ensures var b := Unsigned(Decimal(sign, ip, fp));
            && DotIndex(b) == |ip|
            && b[..|ip|] == ip
            && (fp == "" <==> |ip| == |b|)
            && (fp != "" ==> b[|ip| + 1..] == fp)
    ensures var s := Decimal(sign, ip, fp); (|s| > 0 && s[0] == '-') <==> sign == "-"
  {
    var rest := if fp == "" then "" else "." + fp;
    var b := ip + rest;
    assert Decimal(sign, ip, fp) == sign + b;
    assert b[0] == (if ip != "" then ip[0] else '.');
    UnsignedDecimal(sign, b);
    DotAfterDigits(ip, rest);
    assert b[..|ip|] == ip;
    if fp != "" {
      assert b[|ip| + 1..] == fp;
    }
  }

  /** Every sign-digits-point-digits string is numeric and denotes the
      value its digits spell: the partner of `IsNumeric`/`DecimalValue`. */
  lemma DecimalRoundTrip(sign: string, ip: string, fp: string)
    requires sign == "" || sign == "+" || sign == "-"
    requires AllDigits(ip) && AllDigits(fp) && (ip != "" || fp != "")
    ensures IsNumeric(Decimal(sign, ip, fp))
    ensures var m := DigitsValue(ip) as real + FracValue(fp);
            DecimalValue(Decimal(sign, ip, fp)) == if sign == "-" then -m else m
  {
    DecimalParts(sign, ip, fp);
    var s := Decimal(sign, ip, fp);
    var b := Unsigned(s);
    var d := DotIndex(b);
    assert AllDigits(b[..d]);
    if fp != "" {
      assert d + 1 < |b| && AllDigits(b[d + 1..]);
      assert |b| - d - 1 == |fp|;
    }
    assert IsNumeric(s);
    assert DigitsValue(b[..d]) == DigitsValue(ip);
    assert Magnitude(s) == DigitsValue(ip) as real + FracValue(fp);
  }

  // ---------------------------------------------------------------------
  // Lengths

  /** The variation selectors U+FE0E and U+FE0F, which validator.js
      `isLength` does not count. */
  predicate VariationSelector(c: char) { c == '\U{FE0E}' || c == '\U{FE0F}' }

  /** The length validator.js `isLength` measures: one per code point (a
      surrogate pair counts once, and a Dafny `char` is a whole code point)
      less one per variation selector. */
  function VisibleLength(s: string): (n: nat)
    ensures n <= |s|
    decreases |s|
  {
    if |s| == 0 then 0
    else VisibleLength(s[..|s| - 1]) + (if VariationSelector(s[|s| - 1]) then 0 else 1)
  }

  /** The measured length adds up over concatenation. */
  lemma {:induction false} VisibleLengthAppend(a: string, b: string)
    ensures VisibleLength(a + b) == VisibleLength(a) + VisibleLength(b)
    decreases |b|
  {
    if |b| == 0 {
      assert a + b == a;
    } else {
      var b' := b[..|b| - 1];
      assert (a + b)[..|a + b| - 1] == a + b';
      assert (a + b)[|a + b| - 1] == b[|b| - 1];
      VisibleLengthAppend(a, b');
    }
  }

  /** Without variation selectors the measured length is the plain length,
      and every variation selector makes it one shorter. */
  lemma {:induction false} VisibleLengthCounts(s: string)
    ensures (forall i :: 0 <= i < |s| ==> !VariationSelector(s[i])) ==> VisibleLength(s) == |s|
    ensures (exists i :: 0 <= i < |s| && VariationSelector(s[i])) ==> VisibleLength(s) < |s|
    decreases |s|
  {
    if |s| > 0 {
      var init := s[..|s| - 1];
      VisibleLengthCounts(init);
      if exists i :: 0 <= i < |s| && VariationSelector(s[i]) {
        var i :| 0 <= i < |s| && VariationSelector(s[i]);
        if i < |s| - 1 {
          assert init[i] == s[i];
        }
      }
      if forall i :: 0 <= i < |s| ==> !VariationSelector(s[i]) {
        assert forall i :: 0 <= i < |init| ==> init[i] == s[i];
      }
    }
  }

  // ---------------------------------------------------------------------
  // Identifiers

  predicate IsHex(c: char) { '0' <= c <= '9' || 'a' <= c <= 'f' || 'A' <= c <= 'F' }

  /** validator.js `isHexadecimal`, the pattern `^(0x|0h)?[0-9a-f]+$` with
      the `i` flag: one or more hexadecimal digits, optionally after a
      `0x` or `0h` prefix in either case. */
  predicate IsHexadecimal(s: string) {
    || (|s| > 0 && forall i :: 0 <= i < |s| ==> IsHex(s[i]))
    || (|s| > 2 && s[0] == '0' && s[1] in "xXhH" && forall i :: 2 <= i < |s| ==> IsHex(s[i]))
  }

  /** validator.js `isMongoId`: `isHexadecimal` and a length of 24, so the
      length counts a `0x`/`0h` prefix. */
  predicate IsMongoId(s: string) {
    IsHexadecimal(s) && |s| == 24
  }

  /** An id is 24 hexadecimal digits, or a `0x`/`0h` prefix followed by 22. */
  lemma MongoIdShapes(s: string)
    ensures IsMongoId(s) <==>
      && |s| == 24
      && ((forall i :: 0 <= i < 24 ==> IsHex(s[i]))
          || (s[..2] in {"0x", "0X", "0h", "0H"} && forall i :: 2 <= i < 24 ==> IsHex(s[i])))
  {
    if |s| == 24 {
      assert s[..2] == [s[0], s[1]];
    }
  }

  // ---------------------------------------------------------------------
  // Transactions

  /** A transaction request body as the validators see it; `None` is a
      field the client left out. `iso` on the rules below is validator.js
      `isISO8601`, a parameter of the model. */
  datatype TxRequest = TxRequest(
    amount: Option<string>,
    kind: Option<string>,
    description: Option<string>,
    date: Option<string>,
    category: Option<string>,
    account: Option<string>,
    user: Option<string>)

  /** How a validator reads a field: missing is the empty string. */
  function Field(v: Option<string>): string { v.GetOr("") }

  const TX_KINDS: set<string> := {Views.INCOME, Views.EXPENSE}

  /** `transactionValidationRules`, every chain in order. The first `date`
      chain is optional but the last one is not, so a request passes only
      if the date is present and ISO 8601. */
  predicate ValidTransaction(r: TxRequest, iso: string -> bool) {
    // amount: notEmpty, isNumeric
    && Field(r.amount) != "" && IsNumeric(Field(r.amount))
    // type: notEmpty, isIn
    && Field(r.kind) != "" && Field(r.kind) in TX_KINDS
    // description: notEmpty, trim, isLength >= 3
    && Field(r.description) != "" && VisibleLength(Text.Trim(Field(r.description))) >= 3
    // date: optional, isISO8601
    && (r.date.None? || iso(r.date.value))
    // category, account: notEmpty, isMongoId
    && Field(r.category) != "" && IsMongoId(Field(r.category))
    && Field(r.account) != "" && IsMongoId(Field(r.account))
    // amount: isFloat({ min: 0.01 })
    && IsNumeric(Field(r.amount)) && DecimalValue(Field(r.amount)) >= 0.01
    // date: isISO8601
    && iso(Field(r.date))
  }

  /** The rules stated field by field: a positive amount of at least 0.01,
      a known type, a description of at least three characters once
      trimmed, a present ISO date and two object ids. */
  lemma ValidTransactionIff(r: TxRequest, iso: string -> bool)
    requires !iso("")
    ensures ValidTransaction(r, iso) <==>
      && IsNumeric(Field(r.amount)) && DecimalValue(Field(r.amount)) >= 0.01
      && Field(r.kind) in TX_KINDS
      && VisibleLength(Text.Trim(Field(r.description))) >= 3
      && r.date.Some? && iso(r.date.value)
      && IsMongoId(Field(r.category)) && IsMongoId(Field(r.account))
  {
    if IsNumeric(Field(r.amount)) {
      NumericNonEmpty(Field(r.amount));
    }
  }

  /** A validated amount carries no minus sign: its value is its magnitude. */
  lemma ValidAmountPositive(r: TxRequest, iso: string -> bool)
    requires ValidTransaction(r, iso)
    ensures DecimalValue(Field(r.amount)) == Magnitude(Field(r.amount)) > 0.0
    ensures Field(r.amount)[0] != '-'
  {
  }

  function KindOf(s: string): TxType {
    if s == Views.EXPENSE then Expense else Income
  }

  /** The create body the handler receives from a request: the trimmed
      description, the amount as a number, `date || Date.now()` left to the
      handler (`None` when the date is missing or empty). `parseDate` turns
      the date string into a timestamp. */
  function CreateBody(r: TxRequest, parseDate: string -> int): (b: TransactionController.TxBody)
    requires IsNumeric(Field(r.amount))
    ensures b.amount == DecimalValue(Field(r.amount))
    ensures b.kind == Expense <==> Field(r.kind) == Views.EXPENSE
    ensures b.description == Text.Trim(Field(r.description))
    ensures b.date.Some? <==> Field(r.date) != ""
  {
    TransactionController.TxBody(
      DecimalValue(Field(r.amount)),
      KindOf(Field(r.kind)),
      Text.Trim(Field(r.description)),
      if Field(r.date) != "" then Some(parseDate(Field(r.date))) else None,
      Field(r.category),
      Field(r.account))
  }

  /** The update patch the handler receives: every field the client sent. */
  function UpdatePatch(r: TxRequest, parseDate: string -> int): (p: TransactionController.TxPatch)
    requires IsNumeric(Field(r.amount))
    ensures p.amount == DecimalValue(Field(r.amount))
    ensures p.kind == Expense <==> Field(r.kind) == Views.EXPENSE
    ensures p.account.Some? <==> r.account.Some? && r.account.value != ""
  {
    TransactionController.TxPatch(
      DecimalValue(Field(r.amount)),
      KindOf(Field(r.kind)),
      if r.description.Some? then Some(Text.Trim(r.description.value)) else None,
      if r.date.Some? then Some(parseDate(r.date.value)) else None,
      r.category,
      if Field(r.account) != "" then r.account else None,
      r.user)
  }

  /** A validated create stores exactly the amount the user entered, signed
      by its type, never zero, with the trimmed description and the
      request's own date; it fails only on a missing account. */
  lemma ValidatedCreate(s: Store, caller: Id, newId: Id, now: int, r: TxRequest, iso: string -> bool, parseDate: string -> int)
    requires ValidTransaction(r, iso) && !iso("")
    requires newId !in s.transactions
    ensures var res := TransactionController.Create(s, caller, newId, now, CreateBody(r, parseDate));
            && (res.Failed? <==> Field(r.account) !in s.accounts)
            && (res.Done? ==>
                && Views.Abs(res.body.amount) == DecimalValue(Field(r.amount)) > 0.0
                && (res.body.amount < 0.0 <==> Field(r.kind) == Views.EXPENSE)
                && VisibleLength(res.body.description) >= 3
                && res.body.date == parseDate(r.date.value))
  {
    ValidAmountPositive(r, iso);
  }

  /** A validated update moves the transaction to the account the request
      names, with the entered amount. */
  lemma ValidatedUpdate(s: Store, caller: Id, id: Id, r: TxRequest, iso: string -> bool, parseDate: string -> int)
    requires ValidTransaction(r, iso)
    requires id in s.transactions && s.transactions[id].owner == caller
    ensures var res := TransactionController.Update(s, caller, id, UpdatePatch(r, parseDate));
            && res.Done?
            && res.body.account == Field(r.account)
            && Views.Abs(res.body.amount) == DecimalValue(Field(r.amount))
  {
    ValidAmountPositive(r, iso);
  }

  // ---------------------------------------------------------------------
  // Categories

  /** The shape of a `subcategories` field that is present. */
  datatype Shape = Array(items: seq<string>) | NotArray

  datatype CategoryRequest = CategoryRequest(
    name: Option<string>,
    description: Option<string>,
    subcategories: Option<Shape>,
    user: Option<string>)

  /** `categoryValidationRules`: the trimmed name is non-empty and at least
      two characters long, a description is always accepted, and
      `subcategories`, when present, is an array. */
  predicate ValidCategory(r: CategoryRequest) {
    var name := Text.Trim(Field(r.name));
    && name != "" && VisibleLength(name) >= 2
    && (r.subcategories.None? || r.subcategories.value.Array?)
  }

  /** The body the category handlers receive: name and description
      trimmed, everything else as sent. */
  function CategoryBodyOf(r: CategoryRequest): (b: CategoryController.CategoryBody)
    requires r.subcategories.None? || r.subcategories.value.Array?
    ensures b.name == Some(Text.Trim(Field(r.name)))
    ensures b.description.Some? <==> r.description.Some?
    ensures r.description.Some? ==> b.description.value == Text.Trim(r.description.value)
  {
    CategoryController.CategoryBody(
      Some(Text.Trim(Field(r.name))),
      if r.description.Some? then Some(Text.Trim(r.description.value)) else None,
      if r.subcategories.Some? then Some(r.subcategories.value.items) else None,
      r.user)
  }

  /** Validation makes the schema's name requirement unfailing: a validated
      create fails only on an id clash, and the stored name is at least two
      characters with no surrounding white space. */
  lemma ValidatedCategoryCreate(s: Store, caller: Id, newId: Id, r: CategoryRequest)
    requires ValidCategory(r)
    ensures var res := CategoryController.Create(s, caller, newId, CategoryBodyOf(r));
            && (res.Failed? <==> newId in s.categories)
            && (res.Done? ==> VisibleLength(res.body.name) >= 2 && Text.Trim(res.body.name) == res.body.name)
  {
    Text.TrimIdempotent(Field(r.name));
  }

  /** A name of one letter padded out with a variation selector is too
      short: `isLength` does not count the selector. */
  lemma SelectorPaddedNameRejected()
    ensures !ValidCategory(CategoryRequest(Some("a\U{FE0F}"), None, None, None))
  {
    var name := "a\U{FE0F}";
    Text.TrimIdempotent(name);
    assert Text.Trim(name) == name by {
      assert !Text.IsSpace(name[0]) && !Text.IsSpace(name[1]);
    }
    assert VisibleLength(name[..1]) == 1;
  }

  /** A name that is only white space never passes. */
  lemma BlankCategoryNameRejected(r: CategoryRequest)
    requires Text.AllSpace(Field(r.name))
    ensures !ValidCategory(r)
  {
    Text.TrimEmptyIffBlank(Field(r.name));
  }
}
