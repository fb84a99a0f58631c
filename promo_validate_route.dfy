/** The promo validation handler (app/api/promo/validate/route.js): find the active
    record for the upper-cased code, refuse it when expired, when its usage limit is
    reached or when the amount is below its minimum (in that order), and otherwise
    answer with the discount it gives on the amount. The handler only reads the store. */
module PromoValidateRoute {
  import opened Wrappers
  import opened PromoCodeModel
  import Text
  import Seqs

  datatype ValidateRequest = ValidateRequest(code: string, totalAmount: int)

  datatype PromoError = InvalidCode | Expired | UsageLimitExceeded | BelowMinimum(minimum: int)

  /** The success body (the `valid: true` flag is implied). */
  datatype Discount = Discount(
    code: string,
    discountType: DiscountType,
    discountValue: int,
    discountAmount: int,
    expiryDate: int)

  function Message(e: PromoError): string {
    match e
    case InvalidCode => "Invalid promo code"
    case Expired => "Promo code expired"
    case UsageLimitExceeded => "Usage limit exceeded"
    case BelowMinimum(m) => "Minimum purchase amount of ₹" + Text.IntToString(m) + " required"
  }

  /** The below-minimum message names the minimum amount. */
  lemma MessageNamesMinimum(m: int)
    ensures Text.Includes(Message(BelowMinimum(m)), Text.IntToString(m))
  {
    var prefix := "Minimum purchase amount of ₹";
    var s := Message(BelowMinimum(m));
    assert s[|prefix|..|prefix| + |Text.IntToString(m)|] == Text.IntToString(m);
    assert Text.OccursAt(s, Text.IntToString(m), |prefix|);
  }

  /** The records the lookup accepts: this exact code, and active. */
  predicate Matches(p: PromoCode, code: string) {
    p.code == code && p.isActive
  }

  /** The index of the first record that matches, if any. */
  function FindActive(store: seq<PromoCode>, code: string): (r: Option<nat>)
    ensures r.Some? ==> r.value < |store| && Matches(store[r.value], code)
    ensures r.Some? ==> forall k :: 0 <= k < r.value ==> !Matches(store[k], code)
    ensures r.None? <==> forall k :: 0 <= k < |store| ==> !Matches(store[k], code)
  {
    Seqs.FirstIndex(store, (p: PromoCode) => Matches(p, code))
  }

  /** `Math.round(n / 100)`: the integer nearest to `n / 100`, halves rounded up. */
  function RoundDiv100(n: int): (r: int)
    ensures 100 * r - 50 <= n < 100 * r + 50
  {
    (n + 50) / 100
  }

  /** Lines 39-47 and the rounding of line 54. A percentage is `total * value / 100`,
      replaced by `maxDiscount` when that is set, not 0 and smaller; the value is then
      rounded. A flat discount is the value itself. */
  function DiscountAmount(p: PromoCode, totalAmount: int): int {
    match p.discountType
    case Percentage =>
      if Truthy(p.maxDiscount) && totalAmount * p.discountValue > 100 * p.maxDiscount.value
      then p.maxDiscount.value
      else RoundDiv100(totalAmount * p.discountValue)
    case Flat => p.discountValue
  }

  predicate IsExpiredAt(p: PromoCode, now: int) { now > p.expiryDate }

  predicate LimitReached(p: PromoCode) {
    Truthy(p.usageLimit) && p.usageCount >= p.usageLimit.value
  }

  /** `POST /api/promo/validate` against the store, at time `now`. */
  function Validate(store: seq<PromoCode>, req: ValidateRequest, now: int): (r: Result<Discount, PromoError>)
    ensures r.Ok? ==> r.value.code == Text.ToUpper(req.code) && now <= r.value.expiryDate
    ensures r.Err? && r.error.BelowMinimum? ==> req.totalAmount < r.error.minimum
  {
    var found := FindActive(store, Text.ToUpper(req.code));
    if found.None? then Err(InvalidCode)
    else
      var p := store[found.value];
      if IsExpiredAt(p, now) then Err(Expired)
      else if LimitReached(p) then Err(UsageLimitExceeded)
      else if req.totalAmount < p.minPurchaseAmount then Err(BelowMinimum(p.minPurchaseAmount))
      else Ok(Discount(p.code, p.discountType, p.discountValue, DiscountAmount(p, req.totalAmount), p.expiryDate))
  }

  /** The code is unknown exactly when no active record carries its upper-cased form;
      inactive records are never found. */
  lemma ValidateInvalidCode(store: seq<PromoCode>, req: ValidateRequest, now: int)
    ensures Validate(store, req, now) == Err(InvalidCode) <==>
      forall k :: 0 <= k < |store| ==> store[k].code != Text.ToUpper(req.code) || !store[k].isActive
  {
  }

  /** For the record found, the guards run in the order expiry, usage limit, minimum
      purchase, and the first that fails decides the error. */
  lemma ValidateGuardOrder(store: seq<PromoCode>, req: ValidateRequest, now: int, i: nat)
    requires i < |store| && Matches(store[i], Text.ToUpper(req.code))
    requires forall k :: 0 <= k < i ==> !Matches(store[k], Text.ToUpper(req.code))
    ensures var p, r := store[i], Validate(store, req, now);
      && (r == Err(Expired) <==> now > p.expiryDate)
      && (r == Err(UsageLimitExceeded) <==>
            now <= p.expiryDate && Truthy(p.usageLimit) && p.usageCount >= p.usageLimit.value)
      && (r == Err(BelowMinimum(p.minPurchaseAmount)) <==>
            now <= p.expiryDate && !LimitReached(p) && req.totalAmount < p.minPurchaseAmount)
      && (r.Ok? <==>
            now <= p.expiryDate && !LimitReached(p) && req.totalAmount >= p.minPurchaseAmount)
      && (r.Ok? ==> r.value == Discount(p.code, p.discountType, p.discountValue,
                                         DiscountAmount(p, req.totalAmount), p.expiryDate))
  {
    assert FindActive(store, Text.ToUpper(req.code)) == Some(i);
  }

  /** A code is still accepted at its exact expiry time. */
  lemma ValidAtExpiryInstant(store: seq<PromoCode>, req: ValidateRequest, i: nat)
    requires i < |store| && Matches(store[i], Text.ToUpper(req.code))
    requires forall k :: 0 <= k < i ==> !Matches(store[k], Text.ToUpper(req.code))
    ensures Validate(store, req, store[i].expiryDate) != Err(Expired)
  {
    ValidateGuardOrder(store, req, store[i].expiryDate, i);
  }

  /** A usage limit of 0 behaves as no limit at all. */
  lemma ZeroUsageLimitIsUnlimited(store: seq<PromoCode>, req: ValidateRequest, now: int, i: nat)
    requires i < |store| && store[i].usageLimit == Some(0)
    ensures Validate(store[i := store[i].(usageLimit := None)], req, now) == Validate(store, req, now)
  {
    var store' := store[i := store[i].(usageLimit := None)];
    var code := Text.ToUpper(req.code);
    assert forall k :: 0 <= k < |store| ==> (Matches(store'[k], code) <==> Matches(store[k], code));
    var f, f' := FindActive(store, code), FindActive(store', code);
    assert f == f';
  }

  /** A percentage discount with a cap never exceeds the cap: the cap applies before the
      rounding, and rounding an amount at or below the cap stays at or below it. */
  lemma PercentageRespectsCap(p: PromoCode, totalAmount: int)
    requires p.discountType == Percentage && Truthy(p.maxDiscount)
    ensures DiscountAmount(p, totalAmount) <= p.maxDiscount.value
    ensures totalAmount * p.discountValue > 100 * p.maxDiscount.value ==>
      DiscountAmount(p, totalAmount) == p.maxDiscount.value
    ensures totalAmount * p.discountValue <= 100 * p.maxDiscount.value ==>
      var a := DiscountAmount(p, totalAmount);
      100 * a - 50 <= totalAmount * p.discountValue < 100 * a + 50
  {
  }

  /** With a percentage between 0 and 100 and a cap that is absent or not negative, the
      discount lies between 0 and the amount. */
  lemma PercentageWithinAmount(p: PromoCode, totalAmount: int)
    requires p.discountType == Percentage && 0 <= p.discountValue <= 100 && totalAmount >= 0
    requires p.maxDiscount.None? || p.maxDiscount.value >= 0
    ensures 0 <= DiscountAmount(p, totalAmount) <= totalAmount
  {
    var n := totalAmount * p.discountValue;
    assert 0 <= n <= 100 * totalAmount by {
      assert totalAmount * p.discountValue <= totalAmount * 100;
    }
    var a := DiscountAmount(p, totalAmount);
    if !(Truthy(p.maxDiscount) && n > 100 * p.maxDiscount.value) {
      assert a == RoundDiv100(n);
    } else {
      assert 100 * a < n;
    }
  }

  /** A flat discount is its value, even when that exceeds the amount. */
  lemma FlatIsNotCapped(p: PromoCode, totalAmount: int)
    requires p.discountType == Flat
    ensures DiscountAmount(p, totalAmount) == p.discountValue
  {
  }

  /** 50% capped at 100 on 1000 gives 100, not 500; a flat 150 on 1000 gives 150. */
  lemma DiscountExamples(p: PromoCode)
    ensures DiscountAmount(p.(discountType := Percentage, discountValue := 50, maxDiscount := Some(100)), 1000) == 100
    ensures DiscountAmount(p.(discountType := Flat, discountValue := 150), 1000) == 150
    ensures DiscountAmount(p.(discountType := Percentage, discountValue := 15, maxDiscount := None), 999) == 150
  {
  }
}
