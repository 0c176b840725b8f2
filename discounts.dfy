/** Discounts (frontend/src/services/discountsService.ts): the price a
    discount gives, the checks `createDiscount` and `updateDiscount` make
    before they write, and the use-limit filter of `getActiveDiscounts`.
    Dates are instants as integers and `now` is a parameter; money and
    discount values are reals. */
module Discounts {
  import opened Wrappers
  import opened Seqs
  import Text

  datatype DiscountType = Percentage | Fixed

  /** A row of the `discounts` table, with the columns the modelled code
      reads; `None` is a null column. */
  datatype Discount = Discount(
    code: string,
    discountType: DiscountType,
    discountValue: real,
    startDate: int,
    endDate: int,
    maxUses: Option<int>,
    currentUses: int,
    isActive: bool,
    contestId: Option<string>)

  /** `discount.max_uses` is truthy: set and not zero. A null or zero limit
      means unlimited use. */
  predicate HasUseLimit(d: Discount) {
    d.maxUses.Some? && d.maxUses.value != 0
  }

  /** The limit is set and already reached. */
  predicate Exhausted(d: Discount) {
    HasUseLimit(d) && d.currentUses >= d.maxUses.value
  }

  /** The validity window, both ends included. */
  predicate InWindow(d: Discount, now: int) {
    d.startDate <= now <= d.endDate
  }

  /** The discount takes effect: active, in its window and not used up. */
  predicate Applies(d: Discount, now: int) {
    d.isActive && InWindow(d, now) && !Exhausted(d)
  }

  /** What the discount takes off `originalPrice` before clamping. */
  function DiscountAmount(originalPrice: real, d: Discount): real {
    if d.discountType == Percentage then originalPrice * d.discountValue / 100.0 else d.discountValue
  }

  function Max(a: real, b: real): real {
    if a < b then b else a
  }

  function Min(a: real, b: real): real {
    if a < b then a else b
  }

  /** `calculateDiscountedPrice` at the instant `now`. A discount that does
      not apply (inactive, outside its window, or used up) leaves the price
      as it is; one that applies takes its amount off and never goes below
      zero. */
  function CalculateDiscountedPrice(originalPrice: real, discount: Discount, now: int): (r: real)
    ensures !Applies(discount, now) ==> r == originalPrice
    ensures Applies(discount, now) ==> r == Max(0.0, originalPrice - DiscountAmount(originalPrice, discount))
  {
    if !discount.isActive then originalPrice
    else if now < discount.startDate || now > discount.endDate then originalPrice
    else if discount.maxUses.Some? && discount.maxUses.value != 0 && discount.currentUses >= discount.maxUses.value then
      originalPrice
    else if discount.discountType == Percentage then
      Max(0.0, originalPrice - (originalPrice * discount.discountValue) / 100.0)
    else
      Max(0.0, originalPrice - discount.discountValue)
  }

  /** A limit of zero or null never blocks a discount; a positive limit
      blocks it exactly once the uses reach it. */
  lemma UseLimitCases(d: Discount)
    ensures d.maxUses == None || d.maxUses == Some(0) ==> !Exhausted(d)
    ensures d.maxUses.Some? && d.maxUses.value > 0 ==> (Exhausted(d) <==> d.currentUses >= d.maxUses.value)
  {
  }

  /** The result is never negative for a non-negative price, and with a
      non-negative discount value it never exceeds the price. */
  lemma PriceBounds(originalPrice: real, d: Discount, now: int)
    requires originalPrice >= 0.0
    ensures CalculateDiscountedPrice(originalPrice, d, now) >= 0.0
    ensures d.discountValue >= 0.0 ==> CalculateDiscountedPrice(originalPrice, d, now) <= originalPrice
  {
    if d.discountValue >= 0.0 {
      AmountSign(originalPrice, d);
    }
  }

  /** The amount has the sign of the discount value for a non-negative
      price, and is positive for a positive price and value. */
  lemma AmountSign(originalPrice: real, d: Discount)
    requires originalPrice >= 0.0 && d.discountValue >= 0.0
    ensures DiscountAmount(originalPrice, d) >= 0.0
    ensures originalPrice > 0.0 && d.discountValue > 0.0 ==> DiscountAmount(originalPrice, d) > 0.0
  {
    if d.discountType == Percentage {
      ProductSign(originalPrice, d.discountValue);
    }
  }

  lemma ProductSign(x: real, y: real)
    requires x >= 0.0 && y >= 0.0
    ensures x * y / 100.0 >= 0.0
    ensures x > 0.0 && y > 0.0 ==> x * y / 100.0 > 0.0
  {
  }

  /** For a positive price and a positive value the price changes exactly
      when the discount applies. */
  lemma PriceChangesIffApplies(originalPrice: real, d: Discount, now: int)
    requires originalPrice > 0.0 && d.discountValue > 0.0
    ensures CalculateDiscountedPrice(originalPrice, d, now) < originalPrice <==> Applies(d, now)
    ensures CalculateDiscountedPrice(originalPrice, d, now) == originalPrice <==> !Applies(d, now)
  {
    AmountSign(originalPrice, d);
  }

  /** What the customer saves is the discount amount, capped at the price. */
  lemma Savings(originalPrice: real, d: Discount, now: int)
    requires Applies(d, now) && originalPrice >= 0.0 && d.discountValue >= 0.0
    ensures originalPrice - CalculateDiscountedPrice(originalPrice, d, now) == Min(originalPrice, DiscountAmount(originalPrice, d))
  {
    AmountSign(originalPrice, d);
  }

  /** A percentage of at most 100 needs no clamping: the price is scaled by
      what is left of a hundred. */
  lemma PercentagePrice(originalPrice: real, d: Discount, now: int)
    requires Applies(d, now) && d.discountType == Percentage
    requires originalPrice >= 0.0 && 0.0 <= d.discountValue <= 100.0
    ensures CalculateDiscountedPrice(originalPrice, d, now) == originalPrice * (100.0 - d.discountValue) / 100.0
  {
    assert originalPrice * d.discountValue <= originalPrice * 100.0;
  }

  /** A fixed discount is free exactly when it covers the whole price. */
  lemma FixedPrice(originalPrice: real, d: Discount, now: int)
    requires Applies(d, now) && d.discountType == Fixed
    ensures CalculateDiscountedPrice(originalPrice, d, now) == 0.0 <==> d.discountValue >= originalPrice
    ensures d.discountValue < originalPrice ==> CalculateDiscountedPrice(originalPrice, d, now) == originalPrice - d.discountValue
  {
  }

  // ---------------------------------------------------------------------
  // getActiveDiscounts

  /** The condition of the `filter` after the query: no limit, or uses
      still below it. */
  predicate WithinUseLimit(d: Discount) {
    !(d.maxUses.Some? && d.maxUses.value != 0) || d.currentUses < d.maxUses.value
  }

  /** The database query: active, `start_date <= now <= end_date`, and
      either global or, when a contest id is given, for that contest. */
  predicate QueryMatches(d: Discount, now: int, contestId: Option<string>) {
    d.isActive && d.startDate <= now && d.endDate >= now &&
    if contestId.Some? && contestId.value != "" then d.contestId == contestId || d.contestId == None
    else d.contestId == None
  }

  /** A discount the use-limit filter keeps is exactly one that is not used
      up. */
  lemma WithinUseLimitSpec(d: Discount)
    ensures WithinUseLimit(d) <==> !Exhausted(d)
  {
  }

  /** `getActiveDiscounts(contestId)` on the table `rows`, listed in the
      order the query sorts them: the result keeps that order and holds
      exactly the rows the query selects whose uses are below their limit. */
  function GetActiveDiscounts(rows: seq<Discount>, now: int, contestId: Option<string>): (r: seq<Discount>)
    ensures Subsequence(r, rows)
    ensures forall d :: d in r <==> d in rows && QueryMatches(d, now, contestId) && WithinUseLimit(d)
  {
    var matches := (d: Discount) => QueryMatches(d, now, contestId);
    var q := Filter(rows, matches);
    FilterMembership(rows, matches);
    FilterMembership(q, WithinUseLimit);
    FilterSubsequence(rows, matches);
    FilterSubsequence(q, WithinUseLimit);
    SubsequenceTrans(Filter(q, WithinUseLimit), q, rows);
    Filter(q, WithinUseLimit)
  }

  lemma {:induction false} SubsequenceTrans<T>(a: seq<T>, b: seq<T>, c: seq<T>)
    requires Subsequence(a, b) && Subsequence(b, c)
    ensures Subsequence(a, c)
    decreases |c|
  {
    if a != [] && b != [] && c != [] {
      if b[0] == c[0] && Subsequence(b[1..], c[1..]) {
        if a[0] == b[0] && Subsequence(a[1..], b[1..]) {
          SubsequenceTrans(a[1..], b[1..], c[1..]);
        } else {
          SubsequenceTrans(a, b[1..], c[1..]);
        }
      } else {
        SubsequenceTrans(a, b, c[1..]);
      }
    }
  }

  /** Every discount listed as active at `now` does take effect at `now`,
      and one that takes effect and is in the requested scope is listed. */
  lemma ActiveDiscountsApply(rows: seq<Discount>, now: int, contestId: Option<string>, d: Discount)
    requires d in rows
    requires d.contestId == None || (contestId.Some? && contestId.value != "" && d.contestId == contestId)
    ensures d in GetActiveDiscounts(rows, now, contestId) <==> Applies(d, now)
  {
  }

  // ---------------------------------------------------------------------
  // createDiscount and updateDiscount

  /** The errors the checks throw, in the order they are tried. */
  datatype ValidationError = NotAuthenticated | NonPositiveValue | PercentageOutOfRange | EndNotAfterStart

  function Message(e: ValidationError): string {
    match e
    case NotAuthenticated => "Usuário não autenticado"
    case NonPositiveValue => "O valor do desconto deve ser maior que zero"
    case PercentageOutOfRange => "O desconto percentual deve estar entre 0 e 100"
    case EndNotAfterStart => "A data de término deve ser posterior à data de início"
  }

  /** `CreateDiscountInput`, without the free-text `name` and
      `description`, which are stored as given. */
  datatype CreateInput = CreateInput(
    code: string,
    discountType: DiscountType,
    discountValue: real,
    contestId: Option<string>,
    startDate: int,
    endDate: int,
    maxUses: Option<int>)

  /** `code.toUpperCase().trim()`. */
  function NormalizeCode(code: string): string {
    Text.Trim(Text.ToUpperCase(code))
  }

  /** `createDiscount` up to the insert: the checks in order, then the row
      it inserts. `authenticated` is whether a user is signed in. Creation
      succeeds exactly for a signed-in user with a valid value and an end
      after the start. */
  function CreateDiscount(input: CreateInput, authenticated: bool): (r: Result<Discount, ValidationError>)
    ensures r.Success? <==> authenticated && ValueValid(input.discountType, input.discountValue) && input.startDate < input.endDate
  {
    if !authenticated then Failure(NotAuthenticated)
    else if input.discountValue <= 0.0 then Failure(NonPositiveValue)
    else if input.discountType == Percentage && (input.discountValue > 100.0 || input.discountValue < 0.0) then
      Failure(PercentageOutOfRange)
    else if input.endDate <= input.startDate then Failure(EndNotAfterStart)
    else Success(Discount(NormalizeCode(input.code), input.discountType, input.discountValue, input.startDate,
                          input.endDate, input.maxUses, 0, true, input.contestId))
  }

  /** A discount value the checks accept: positive and, for a percentage, at
      most 100. */
  predicate ValueValid(t: DiscountType, v: real) {
    v > 0.0 && (t == Percentage ==> v <= 100.0)
  }

  /** A refused creation names the first check that fails. */
  lemma CreateAccepts(input: CreateInput, authenticated: bool)
    ensures !authenticated ==> CreateDiscount(input, authenticated) == Failure(NotAuthenticated)
    ensures authenticated && input.discountValue <= 0.0 ==> CreateDiscount(input, authenticated) == Failure(NonPositiveValue)
    ensures authenticated && input.discountValue > 0.0 && !ValueValid(input.discountType, input.discountValue) ==>
              CreateDiscount(input, authenticated) == Failure(PercentageOutOfRange)
    ensures authenticated && ValueValid(input.discountType, input.discountValue) && input.endDate <= input.startDate ==>
              CreateDiscount(input, authenticated) == Failure(EndNotAfterStart)
  {
  }

  /** The inserted row: the input with its code normalised, no uses yet,
      and active. */
  lemma CreatedRow(input: CreateInput, authenticated: bool)
    requires CreateDiscount(input, authenticated).Success?
    ensures var d := CreateDiscount(input, authenticated).value;
            d.code == NormalizeCode(input.code) && d.discountType == input.discountType &&
            d.discountValue == input.discountValue && d.startDate == input.startDate &&
            d.endDate == input.endDate && d.maxUses == input.maxUses && d.contestId == input.contestId &&
            d.currentUses == 0 && d.isActive
  {
  }

  /** A newly created discount with a null or positive limit takes effect
      exactly inside its window, and its price stays between zero and the
      original price. */
  lemma CreatedApplies(input: CreateInput, authenticated: bool, originalPrice: real, now: int)
    requires CreateDiscount(input, authenticated).Success?
    requires input.maxUses == None || input.maxUses.value > 0
    requires originalPrice >= 0.0
    ensures var d := CreateDiscount(input, authenticated).value;
            (Applies(d, now) <==> input.startDate <= now <= input.endDate) &&
            0.0 <= CalculateDiscountedPrice(originalPrice, d, now) <= originalPrice
  {
    PriceBounds(originalPrice, CreateDiscount(input, authenticated).value, now);
  }

  /** No character of `s` is a lower-case ASCII letter. */
  predicate NoLower(s: string) {
    forall i :: 0 <= i < |s| ==> !Text.IsAsciiLower(s[i])
  }

  lemma UpperUnchanged(s: string)
    requires NoLower(s)
    ensures Text.ToUpperCase(s) == s
  {
    assert forall i :: 0 <= i < |s| ==> Text.ToUpperCase(s)[i] == s[i];
  }

  /** A normalised code is upper-case, has no white space at either end,
      and normalising it again changes nothing. */
  lemma NormalizeCodeSpec(code: string)
    ensures var n := NormalizeCode(code);
            NoLower(n) && (n == [] || (!Text.IsJsWhitespace(n[0]) && !Text.IsJsWhitespace(n[|n| - 1]))) &&
            NormalizeCode(n) == n
  {
    var u := Text.ToUpperCase(code);
    var n := Text.Trim(u);
    Text.TrimSpec(u);
    var i, j :| Text.SliceOf(u, n, i, j);
    assert forall k :: 0 <= k < |n| ==> n[k] == u[i + k];
    UpperUnchanged(n);
    Text.TrimIdempotent(u);
  }

  /** `UpdateDiscountInput`, without `name` and `description`; `None` is a
      field left out of the update, and for the nullable columns
      `Some(None)` is an explicit null. */
  datatype UpdateInput = UpdateInput(
    code: Option<string>,
    discountType: Option<DiscountType>,
    discountValue: Option<real>,
    contestId: Option<Option<string>>,
    startDate: Option<int>,
    endDate: Option<int>,
    maxUses: Option<Option<int>>,
    isActive: Option<bool>)

  /** The columns an update sets on a stored row: each field given
      overwrites its column. */
  function ApplyUpdate(d: Discount, u: UpdateInput): Discount {
    Discount(
      if u.code.Some? then u.code.value else d.code,
      if u.discountType.Some? then u.discountType.value else d.discountType,
      if u.discountValue.Some? then u.discountValue.value else d.discountValue,
      if u.startDate.Some? then u.startDate.value else d.startDate,
      if u.endDate.Some? then u.endDate.value else d.endDate,
      if u.maxUses.Some? then u.maxUses.value else d.maxUses,
      d.currentUses,
      if u.isActive.Some? then u.isActive.value else d.isActive,
      if u.contestId.Some? then u.contestId.value else d.contestId)
  }

  /** The code of an update, normalised when it is given and not empty. */
  function UpdatedCode(code: Option<string>): Option<string> {
    if code.Some? && code.value != "" then Some(NormalizeCode(code.value)) else code
  }

  /** `updateDiscount` up to the write, as written: it returns the update
      it sends. The type used for the percentage check is
      `updateData.discount_type || input.discount_type`, and `updateData`
      is a copy of `input`, so only a type given in the same update is
      seen. An update is refused only for a value that is given and invalid
      together with the type given in the same update, or for two given
      dates out of order. */
  function UpdateDiscount(input: UpdateInput): (r: Result<UpdateInput, ValidationError>)
    ensures r.Success? <==>
              (input.discountValue.Some? ==>
                 input.discountValue.value > 0.0 &&
                 (input.discountType == Some(Percentage) ==> input.discountValue.value <= 100.0)) &&
              (input.startDate.Some? && input.endDate.Some? ==> input.startDate.value < input.endDate.value)
  {
    var updateData := input.(code := UpdatedCode(input.code));
    if updateData.discountValue.Some? && updateData.discountValue.value <= 0.0 then Failure(NonPositiveValue)
    else if updateData.discountValue.Some? &&
            (if updateData.discountType.Some? then updateData.discountType else input.discountType) == Some(Percentage) &&
            (updateData.discountValue.value > 100.0 || updateData.discountValue.value < 0.0) then
      Failure(PercentageOutOfRange)
    else if updateData.startDate.Some? && updateData.endDate.Some? && updateData.endDate.value <= updateData.startDate.value then
      Failure(EndNotAfterStart)
    else Success(updateData)
  }

  /** An accepted update is the input with its code normalised, and one
      that changes neither the value nor the date range is always
      accepted. */
  lemma UpdateAccepts(input: UpdateInput)
    ensures UpdateDiscount(input).Success? ==> UpdateDiscount(input).value == input.(code := UpdatedCode(input.code))
    ensures input.discountValue.None? && input.startDate.None? ==> UpdateDiscount(input).Success?
  {
  }

  /** The same checks as creation, for the fields an update gives: with a
      value and a type both given, an update is accepted on those checks
      exactly when creation would accept them. */
  lemma UpdateAgreesWithCreate(input: UpdateInput, c: CreateInput)
    requires input.discountValue == Some(c.discountValue) && input.discountType == Some(c.discountType)
    requires input.startDate == Some(c.startDate) && input.endDate == Some(c.endDate)
    ensures UpdateDiscount(input).Success? <==> CreateDiscount(c, true).Success?
  {
    CreateAccepts(c, true);
  }

  /** As written, an update that gives only a new value skips the
      percentage bound: a 10% discount updated to the value 150 is accepted
      and the stored row becomes a 150% discount. */
  lemma UpdateSkipsPercentageBound()
    ensures var d := Discount("PROMO10", Percentage, 10.0, 0, 100, None, 0, true, None);
            var u := UpdateInput(None, None, Some(150.0), None, None, None, None, None);
            ValueValid(d.discountType, d.discountValue) &&
            UpdateDiscount(u) == Success(u) &&
            !ValueValid(ApplyUpdate(d, u).discountType, ApplyUpdate(d, u).discountValue)
  {
  }

  /** The update checked against the stored row `current`: the percentage
      bound uses the type the row will have, the given one or else the
      stored one, and applies whenever the value or the type changes. It
      accepts nothing the unchecked update refuses, and it still accepts
      every update that touches neither the value, nor the type, nor both
      dates. */
  function UpdateDiscountOf(current: Discount, input: UpdateInput): (r: Result<UpdateInput, ValidationError>)
    ensures r.Success? ==> UpdateDiscount(input).Success? && r.value == input.(code := UpdatedCode(input.code))
    ensures input.discountValue.None? && input.discountType.None? && (input.startDate.None? || input.endDate.None?) ==>
              r.Success?
  {
    var updateData := input.(code := UpdatedCode(input.code));
    var discountType := if input.discountType.Some? then input.discountType.value else current.discountType;
    var discountValue := if input.discountValue.Some? then input.discountValue.value else current.discountValue;
    if input.discountValue.Some? && discountValue <= 0.0 then Failure(NonPositiveValue)
    else if (input.discountValue.Some? || input.discountType.Some?) && discountType == Percentage &&
            (discountValue > 100.0 || discountValue < 0.0) then
      Failure(PercentageOutOfRange)
    else if input.startDate.Some? && input.endDate.Some? && input.endDate.value <= input.startDate.value then
      Failure(EndNotAfterStart)
    else Success(updateData)
  }

  /** The checked update keeps a stored row's value valid, and it accepts
      everything the unchecked one accepts except updates that would make
      the value invalid. */
  lemma UpdateOfKeepsValueValid(current: Discount, input: UpdateInput)
    requires ValueValid(current.discountType, current.discountValue)
    ensures var r := UpdateDiscountOf(current, input);
            r.Success? ==> ValueValid(ApplyUpdate(current, r.value).discountType, ApplyUpdate(current, r.value).discountValue)
    ensures UpdateDiscountOf(current, input).Success? <==>
              UpdateDiscount(input).Success? &&
              ValueValid(ApplyUpdate(current, input).discountType, ApplyUpdate(current, input).discountValue)
  {
  }
}
