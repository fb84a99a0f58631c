/** The promo code collection handlers (app/api/admin/promo-codes/route.js): `GET`
    lists the codes newest first, `POST` refuses a code whose upper-cased form is already
    stored and otherwise inserts a new active record. */
module AdminPromoCodesRoute {
  import opened Wrappers
  import opened PromoCodeModel
  import Text
  import Seqs

  /** The JSON body of `POST`. For the numbers and the type, `None` is a field the client
      left out or sent as null. `expiryDate` is what `new Date(body.expiryDate)` makes of
      the field: `Some(t)` for the time it denotes (a null denotes the epoch, `Some(0)`),
      `None` for an invalid date, as a missing field or text that is not a date gives. */
  datatype CreateRequest = CreateRequest(
    code: string,
    discountType: Option<DiscountType>,
    discountValue: Option<int>,
    maxDiscount: Option<int>,
    minPurchaseAmount: Option<int>,
    expiryDate: Option<int>,
    usageLimit: Option<int>)

  /** `CodeExists` is the 400 of lines 23-28; `SaveFailed` the 500 raised when the
      schema's validation refuses the record, carrying the thrown error's message. */
  datatype CreateError = CodeExists | SaveFailed(message: string)

  function StatusCode(e: CreateError): int {
    match e
    case CodeExists => 400
    case SaveFailed(_) => 500
  }

  /** The `error` field of the response body: the fixed duplicate text, or the thrown
      error's message unchanged (no fallback, unlike the bookings handler). */
  function Message(e: CreateError): (m: string)
    ensures e.CodeExists? ==> m == "Promo code already exists"
    ensures e.SaveFailed? ==> m == e.message
  {
    match e
    case CodeExists => "Promo code already exists"
    case SaveFailed(message) => message
  }

  /** Lines 30-39: the fields the handler gives the new record. */
  function FieldsFor(body: CreateRequest): PromoCodeFields {
    PromoCodeFields(
      Text.ToUpper(body.code), body.discountType, body.discountValue, body.maxDiscount,
      Some(if Truthy(body.minPurchaseAmount) then body.minPurchaseAmount.value else 0),
      body.expiryDate, body.usageLimit, None, Some(true))
  }

  /** A record created by the handler carries the upper-cased code, a minimum purchase
      of 0 when none (or 0) was given, no uses and the active flag. */
  lemma CreatedRecord(body: CreateRequest, id: string, now: int)
    requires BuildPromoCode(id, FieldsFor(body), now).Some?
    ensures var p := BuildPromoCode(id, FieldsFor(body), now).value;
      && p.code == Text.ToUpper(body.code)
      && (!Truthy(body.minPurchaseAmount) ==> p.minPurchaseAmount == 0)
      && (Truthy(body.minPurchaseAmount) ==> p.minPurchaseAmount == body.minPurchaseAmount.value)
      && p.isActive && p.usageCount == 0
      && p.maxDiscount == body.maxDiscount && p.usageLimit == body.usageLimit
  {
    Text.ToUpperFixesUpperCase(body.code);
  }

  /** The duplicate lookup finds a record: some record, active or not, has exactly this
      code. */
  predicate HasCode(codes: seq<PromoCode>, code: string) {
    exists i | 0 <= i < |codes| :: codes[i].code == code
  }

  ghost predicate UniqueCodes(codes: seq<PromoCode>) {
    forall i, j :: 0 <= i < j < |codes| ==> codes[i].code != codes[j].code
  }

  ghost predicate AllUpperCase(codes: seq<PromoCode>) {
    forall i :: 0 <= i < |codes| ==> Text.IsUpperCase(codes[i].code)
  }

  /** As every stored code is upper case, the exact lookup of the upper-cased input finds
      a record exactly when some stored code equals the input up to case. */
  lemma DuplicateIsCaseInsensitive(codes: seq<PromoCode>, code: string)
    requires AllUpperCase(codes)
    ensures HasCode(codes, Text.ToUpper(code)) <==>
      exists i | 0 <= i < |codes| :: Text.ToUpper(codes[i].code) == Text.ToUpper(code)
  {
    forall i | 0 <= i < |codes| ensures Text.ToUpper(codes[i].code) == codes[i].code {
      Text.ToUpperFixesUpperCase(codes[i].code);
    }
  }

  class PromoCodeStore {
    /** The PromoCode collection, in insertion order. */
    var promoCodes: seq<PromoCode>

    ghost predicate Valid()
      reads this
    {
      UniqueCodes(promoCodes) && AllUpperCase(promoCodes)
    }

    constructor ()
      ensures Valid() && promoCodes == []
    {
      promoCodes := [];
    }

    /** `GET`: every stored code, newest first. */
    function List(): (r: seq<PromoCode>)
      reads this
      ensures multiset(r) == multiset(promoCodes)
      ensures Seqs.SortedDesc(r, (p: PromoCode) => p.createdAt)
    {
      Seqs.SortDesc(promoCodes, (p: PromoCode) => p.createdAt)
    }

    /** `POST` with the new record's id `id`, the clock `now` and `saveError`, the
        message of the error `save` throws when the schema refuses the record. */
    method Create(body: CreateRequest, id: string, now: int, saveError: string) returns (res: Result<PromoCode, CreateError>)
      requires Valid()
      modifies this
      ensures Valid()
      ensures HasCode(old(promoCodes), Text.ToUpper(body.code)) ==>
        res == Err(CodeExists) && promoCodes == old(promoCodes)
      ensures !HasCode(old(promoCodes), Text.ToUpper(body.code)) ==>
        var built := BuildPromoCode(id, FieldsFor(body), now);
        if built.Some? then res == Ok(built.value) && promoCodes == old(promoCodes) + [built.value]
        else res == Err(SaveFailed(saveError)) && promoCodes == old(promoCodes)
      ensures res.Ok? ==> |promoCodes| == |old(promoCodes)| + 1
    {
      var code := Text.ToUpper(body.code);
      if HasCode(promoCodes, code) {
        return Err(CodeExists);
      }
      var built := BuildPromoCode(id, FieldsFor(body), now);
      if built.None? {
        return Err(SaveFailed(saveError));
      }
      var p := built.value;
      Text.ToUpperFixesUpperCase(body.code);
      assert p.code == code;
      var s := promoCodes + [p];
      assert UniqueCodes(s) by {
        forall i, j | 0 <= i < j < |s| ensures s[i].code != s[j].code {
          if j == |promoCodes| { assert s[i] == promoCodes[i]; }
        }
      }
      promoCodes := s;
      return Ok(p);
    }
  }
}
