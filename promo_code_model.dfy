/** The PromoCode record (lib/models/PromoCode.js): a discount rule with an expiry,
    an optional cap, an optional usage limit and an active flag. */
module PromoCodeModel {
  import opened Wrappers
  import Text

  /** The schema's `enum: ['percentage', 'flat']`. */
  datatype DiscountType = Percentage | Flat

  datatype PromoCode = PromoCode(
    id: string,
    code: string,
    discountType: DiscountType,
    discountValue: int,
    maxDiscount: Option<int>,
    minPurchaseAmount: int,
    expiryDate: int,
    usageLimit: Option<int>,
    usageCount: int,
    isActive: bool,
    createdAt: int)

  /** The fields handed to `new PromoCode({...})`; `None` is a field left undefined, and
      for `discountType` also a string outside the enum, for `expiryDate` also a value
      that is not a date. */
  datatype PromoCodeFields = PromoCodeFields(
    code: string,
    discountType: Option<DiscountType>,
    discountValue: Option<int>,
    maxDiscount: Option<int>,
    minPurchaseAmount: Option<int>,
    expiryDate: Option<int>,
    usageLimit: Option<int>,
    usageCount: Option<int>,
    isActive: Option<bool>)

  /** `code`, `discountType`, `discountValue` and `expiryDate` are required (an empty
      string counts as missing). */
  predicate HasRequiredFields(f: PromoCodeFields) {
    f.code != "" && f.discountType.Some? && f.discountValue.Some? && f.expiryDate.Some?
  }

  /** `new PromoCode(f)` with the validation `save()` runs; `now` is the creation time.
      The schema upper-cases `code`, `minPurchaseAmount` and `usageCount` default to 0
      and `isActive` defaults to true; `maxDiscount` and `usageLimit` stay optional. */
  function BuildPromoCode(id: string, f: PromoCodeFields, now: int): (r: Option<PromoCode>)
    ensures r.Some? <==> HasRequiredFields(f)
    ensures r.Some? ==> Text.IsUpperCase(r.value.code) && r.value.code == Text.ToUpper(f.code)
    ensures r.Some? ==>
      && r.value.id == id && r.value.createdAt == now
      && r.value.discountType == f.discountType.value
      && r.value.discountValue == f.discountValue.value
      && r.value.expiryDate == f.expiryDate.value
      && r.value.maxDiscount == f.maxDiscount && r.value.usageLimit == f.usageLimit
    ensures r.Some? && f.minPurchaseAmount.None? ==> r.value.minPurchaseAmount == 0
    ensures r.Some? && f.usageCount.None? ==> r.value.usageCount == 0
    ensures r.Some? && f.isActive.None? ==> r.value.isActive
    ensures r.Some? && f.minPurchaseAmount.Some? ==> r.value.minPurchaseAmount == f.minPurchaseAmount.value
    ensures r.Some? && f.usageCount.Some? ==> r.value.usageCount == f.usageCount.value
    ensures r.Some? && f.isActive.Some? ==> r.value.isActive == f.isActive.value
  {
    if HasRequiredFields(f) then
      Text.ToUpperIsUpperCase(f.code);
      Some(PromoCode(
        id, Text.ToUpper(f.code), f.discountType.value, f.discountValue.value,
        f.maxDiscount, f.minPurchaseAmount.GetOr(0), f.expiryDate.value,
        f.usageLimit, f.usageCount.GetOr(0), f.isActive.GetOr(true), now))
    else None
  }
}
