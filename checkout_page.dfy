/** The checkout page (app/user/chechkout/page.jsx): the price breakdown shown for the
    reservation in progress, the promo code field with its validation round trip, and
    the booking request the form submits. */
module CheckoutPage {
  import opened Wrappers
  import Text
  import PromoCodeModel
  import PromoValidateRoute
  import BookingsRoute
  import BookingModel

  /** The reservation the detail page left in session storage. */
  datatype BookingData = BookingData(
    experienceId: string,
    experienceTitle: string,
    date: string,
    time: string,
    quantity: int,
    pricePerPerson: int)

  /** The JSON body of `POST /api/bookings` built at lines 81-94. */
  datatype BookingPayload = BookingPayload(
    fullName: string,
    email: string,
    experienceId: string,
    experienceTitle: string,
    date: string,
    time: string,
    quantity: int,
    subtotal: int,
    taxes: int,
    promoCode: Option<string>,
    discountAmount: int,
    total: int)

  /** How the validation request ended: a 2xx body, an error status with the body's
      `error` field (if any), or a thrown `fetch`. */
  datatype ValidateResponse =
    | Accepted(discount: PromoValidateRoute.Discount)
    | Refused(error: Option<string>)
    | ValidateNetworkFailure

  /** How the booking request ended, in the same three ways. */
  datatype SubmitResponse =
    | Booked(booking: BookingModel.Booking)
    | Rejected(error: Option<string>)
    | SubmitNetworkFailure

  // ---------------------------------------------------------------------------
  // Prices (lines 129-132)

  function Subtotal(d: BookingData): int { d.pricePerPerson * d.quantity }

  /** `Math.round(subtotal * 0.1)`: the integer nearest to a tenth, halves rounded up. */
  function Taxes(subtotal: int): (t: int)
    ensures 10 * t - 5 <= subtotal < 10 * t + 5
  {
    (subtotal + 5) / 10
  }

  /** The applied promo's discount amount, 0 when no promo is applied. */
  function AppliedDiscount(applied: Option<PromoValidateRoute.Discount>): int {
    if applied.Some? then applied.value.discountAmount else 0
  }

  function FinalTotal(d: BookingData, applied: Option<PromoValidateRoute.Discount>): int {
    Subtotal(d) + Taxes(Subtotal(d)) - AppliedDiscount(applied)
  }

  /** The breakdown: with no promo the total is subtotal plus taxes; otherwise the
      discount is taken off that sum, and the taxes are charged on the undiscounted
      subtotal. */
  lemma FinalTotalBreakdown(d: BookingData, applied: Option<PromoValidateRoute.Discount>)
    ensures applied.None? ==> FinalTotal(d, applied) == Subtotal(d) + Taxes(Subtotal(d))
    ensures applied.Some? ==>
      FinalTotal(d, applied) == Subtotal(d) + Taxes(Subtotal(d)) - applied.value.discountAmount
    ensures FinalTotal(d, applied) + AppliedDiscount(applied) == FinalTotal(d, None)
  {
  }

  /** Taxes on a non-negative subtotal lie between nothing and the subtotal. */
  lemma TaxesBounds(subtotal: int)
    requires subtotal >= 0
    ensures 0 <= Taxes(subtotal) <= subtotal
  {
  }

  /** A discount the server computed for this subtotal from a percentage between 0 and
      100 (with a non-negative cap, if any) never makes the total drop below the taxes. */
  lemma PercentageDiscountKeepsTotalAboveTaxes(d: BookingData, store: seq<PromoCodeModel.PromoCode>,
                                                code: string, now: int)
    requires Subtotal(d) >= 0
    requires PromoValidateRoute.Validate(store, PromoValidateRoute.ValidateRequest(code, Subtotal(d)), now).Ok?
    requires var r := PromoValidateRoute.Validate(store, PromoValidateRoute.ValidateRequest(code, Subtotal(d)), now).value;
      r.discountType == PromoCodeModel.Percentage && 0 <= r.discountValue <= 100
    requires forall p | p in store :: p.maxDiscount.None? || p.maxDiscount.value >= 0
    ensures var r := PromoValidateRoute.Validate(store, PromoValidateRoute.ValidateRequest(code, Subtotal(d)), now).value;
      Taxes(Subtotal(d)) <= FinalTotal(d, Some(r)) <= Subtotal(d) + Taxes(Subtotal(d))
  {
    var req := PromoValidateRoute.ValidateRequest(code, Subtotal(d));
    var i := PromoValidateRoute.FindActive(store, Text.ToUpper(code)).value;
    var p := store[i];
    assert p in store;
    PromoValidateRoute.PercentageWithinAmount(p, Subtotal(d));
    TaxesBounds(Subtotal(d));
  }

  /** A flat discount larger than subtotal plus taxes gives a negative total: 100 off a
      single 50-rupee ticket charges -45. */
  lemma FlatDiscountCanMakeTotalNegative()
    ensures var d := BookingData("e", "t", "2025-01-01", "09:00", 1, 50);
      var flat := PromoValidateRoute.Discount("SAVE100", PromoCodeModel.Flat, 100, 100, 0);
      FinalTotal(d, Some(flat)) == -45
  {
  }

  /** Lines 81-94. The promo code is sent only when a promo is applied and its code is
      not empty; otherwise it is null. */
  function Payload(d: BookingData, fullName: string, email: string,
                   applied: Option<PromoValidateRoute.Discount>): (p: BookingPayload)
    ensures p.promoCode.Some? <==> applied.Some? && applied.value.code != ""
    ensures p.promoCode.Some? ==> p.promoCode.value == applied.value.code
    ensures p.discountAmount == (if applied.Some? then applied.value.discountAmount else 0)
    ensures p.subtotal == d.pricePerPerson * d.quantity
    ensures 10 * p.taxes - 5 <= p.subtotal < 10 * p.taxes + 5
    ensures p.total == p.subtotal + p.taxes - p.discountAmount
    ensures p.fullName == fullName && p.email == email && p.experienceId == d.experienceId
    ensures p.experienceTitle == d.experienceTitle && p.date == d.date && p.time == d.time
    ensures p.quantity == d.quantity
  {
    BookingPayload(fullName, email, d.experienceId, d.experienceTitle, d.date, d.time,
      d.quantity, Subtotal(d), Taxes(Subtotal(d)),
      if applied.Some? && applied.value.code != "" then Some(applied.value.code) else None,
      AppliedDiscount(applied), FinalTotal(d, applied))
  }

  /** The payload as the booking handler reads it (it ignores `experienceTitle`). */
  function AsRequest(p: BookingPayload): BookingsRoute.BookingRequest {
    BookingsRoute.BookingRequest(p.experienceId, p.date, p.time, p.quantity, p.fullName,
      p.email, p.subtotal, p.taxes, p.promoCode, Some(p.discountAmount), p.total)
  }

  /** A Booking the handler creates from this page's payload records prices that add up:
      its total is its subtotal plus its taxes less its discount, and the discount and
      promo code are those of the applied promo. */
  lemma BookedPricesAddUp(d: BookingData, fullName: string, email: string,
                          applied: Option<PromoValidateRoute.Discount>, title: string,
                          refId: string, now: int)
    requires var fields := BookingsRoute.BookingFieldsFor(AsRequest(Payload(d, fullName, email, applied)), title, refId);
      BookingModel.BuildBooking(fields, now).Some?
    ensures var fields := BookingsRoute.BookingFieldsFor(AsRequest(Payload(d, fullName, email, applied)), title, refId);
      var b := BookingModel.BuildBooking(fields, now).value;
      && b.total == b.subtotal + b.taxes - b.discountAmount
      && b.subtotal == d.pricePerPerson * d.quantity
      && b.discountAmount == AppliedDiscount(applied)
      && (applied.None? ==> b.promoCode.None? && b.discountAmount == 0)
      && b.experienceTitle == title
  {
  }

  // ---------------------------------------------------------------------------
  // The component state

  class Checkout {
    var fullName: string
    var email: string
    /** The promo code input, always upper case. */
    var promoCode: string
    /** `None` until (or unless) the session held a reservation. */
    var bookingData: Option<BookingData>
    var appliedPromo: Option<PromoValidateRoute.Discount>
    var loading: bool
    var promoLoading: bool
    var error: string
    var termsAccepted: bool

    ghost predicate Valid()
      reads this
    {
      Text.IsUpperCase(promoCode)
    }

    /** The first render followed by the effect that reads the session. */
    constructor (session: Option<BookingData>)
      ensures Valid()
      ensures fullName == "" && email == "" && promoCode == "" && error == ""
      ensures bookingData == session && appliedPromo.None?
      ensures !loading && !promoLoading && !termsAccepted
    {
      fullName := "";
      email := "";
      promoCode := "";
      bookingData := session;
      appliedPromo := None;
      loading := false;
      promoLoading := false;
      error := "";
      termsAccepted := false;
    }

    /** The Apply button is enabled (line 193). */
    predicate CanApply()
      reads this
    {
      !promoLoading && appliedPromo.None?
    }

    /** The form's submit event fires only when the browser's checks pass: the `required`
        name and email inputs (lines 160 and 168-171) are filled in, and the submit
        button, disabled while loading (line 230), is enabled. */
    predicate CanSubmit()
      reads this
    {
      fullName != "" && email != "" && !loading
    }

    method SetFullName(value: string)
      modifies this
      ensures fullName == value
      ensures email == old(email) && promoCode == old(promoCode) && bookingData == old(bookingData)
      ensures appliedPromo == old(appliedPromo) && error == old(error)
      ensures loading == old(loading) && promoLoading == old(promoLoading)
      ensures termsAccepted == old(termsAccepted)
    {
      fullName := value;
    }

    method SetEmail(value: string)
      modifies this
      ensures email == value
      ensures fullName == old(fullName) && promoCode == old(promoCode) && bookingData == old(bookingData)
      ensures appliedPromo == old(appliedPromo) && error == old(error)
      ensures loading == old(loading) && promoLoading == old(promoLoading)
      ensures termsAccepted == old(termsAccepted)
    {
      email := value;
    }

    method SetTermsAccepted(checked: bool)
      modifies this
      ensures termsAccepted == checked
      ensures fullName == old(fullName) && email == old(email) && promoCode == old(promoCode)
      ensures bookingData == old(bookingData) && appliedPromo == old(appliedPromo)
      ensures error == old(error) && loading == old(loading) && promoLoading == old(promoLoading)
    {
      termsAccepted := checked;
    }

    /** Typing in the promo field (line 185): the text is upper-cased; the field is
        disabled once a promo is applied, so typing then changes nothing. */
    method SetPromoCode(input: string)
      requires Valid()
      modifies this
      ensures Valid()
      ensures promoCode == (if old(appliedPromo).None? then Text.ToUpper(input) else old(promoCode))
      ensures fullName == old(fullName) && email == old(email) && bookingData == old(bookingData)
      ensures appliedPromo == old(appliedPromo) && error == old(error)
      ensures loading == old(loading) && promoLoading == old(promoLoading)
      ensures termsAccepted == old(termsAccepted)
    {
      if appliedPromo.None? {
        Text.ToUpperIsUpperCase(input);
        promoCode := Text.ToUpper(input);
      }
    }

    /** The first half of `validatePromoCode` (lines 32-48), up to the request it sends.
        A blank code sets the error and sends nothing; otherwise the request carries the
        code and the subtotal (taxes excluded) and the field shows it is validating. */
    method StartPromoValidation() returns (req: Option<PromoValidateRoute.ValidateRequest>)
      requires Valid() && bookingData.Some? && CanApply()
      modifies this
      ensures Valid()
      ensures Text.IsBlank(old(promoCode)) ==>
        req.None? && error == "Please enter a promo code" && promoLoading == old(promoLoading)
      ensures !Text.IsBlank(old(promoCode)) ==>
        && req == Some(PromoValidateRoute.ValidateRequest(promoCode, Subtotal(old(bookingData).value)))
        && promoLoading && error == ""
      ensures fullName == old(fullName) && email == old(email) && promoCode == old(promoCode)
      ensures bookingData == old(bookingData) && appliedPromo == old(appliedPromo)
      ensures loading == old(loading) && termsAccepted == old(termsAccepted)
    {
      // `!promoCode.trim()` holds exactly when the code is blank (Text.TrimEmptyIffBlank).
      if Text.IsBlank(promoCode) {
        error := "Please enter a promo code";
        return None;
      }
      promoLoading := true;
      error := "";
      var subtotal := Subtotal(bookingData.value);
      return Some(PromoValidateRoute.ValidateRequest(promoCode, subtotal));
    }

    /** The second half of `validatePromoCode` (lines 50-64). A refusal or a network
        failure clears the applied promo and shows an error; an acceptance applies the
        promo and clears the error. Either way validation is over. */
    method CompletePromoValidation(resp: ValidateResponse)
      requires Valid() && promoLoading
      modifies this
      ensures Valid()
      ensures resp.Accepted? ==> appliedPromo == Some(resp.discount) && error == ""
      ensures resp.Refused? ==> appliedPromo.None?
      ensures resp.Refused? ==>
        error == (if resp.error.Some? && resp.error.value != "" then resp.error.value else "Invalid promo code")
      ensures resp.ValidateNetworkFailure? ==>
        appliedPromo.None? && error == "Failed to validate promo code"
      ensures !promoLoading
      ensures fullName == old(fullName) && email == old(email) && promoCode == old(promoCode)
      ensures bookingData == old(bookingData) && loading == old(loading)
      ensures termsAccepted == old(termsAccepted)
    {
      match resp {
        case Accepted(discount) =>
          appliedPromo := Some(discount);
          error := "";
        case Refused(message) =>
          error := if message.Some? && message.value != "" then message.value else "Invalid promo code";
          appliedPromo := None;
        case ValidateNetworkFailure =>
          error := "Failed to validate promo code";
          appliedPromo := None;
      }
      promoLoading := false;
    }

    /** The first half of `handleSubmit` (lines 70-94), up to the request it sends, once
        the form's own checks let it run. Without accepted terms or without a reservation
        nothing is sent and nothing changes; otherwise the payload of the current form,
        with its non-empty name and email, is sent. */
    method Submit() returns (payload: Option<BookingPayload>)
      requires Valid() && CanSubmit()
      modifies this
      ensures Valid()
      ensures !old(termsAccepted) || old(bookingData).None? ==>
        payload.None? && loading == old(loading) && error == old(error)
      ensures old(termsAccepted) && old(bookingData).Some? ==>
        && payload == Some(Payload(old(bookingData).value, fullName, email, appliedPromo))
        && payload.value.fullName != "" && payload.value.email != ""
        && loading && error == ""
      ensures fullName == old(fullName) && email == old(email) && promoCode == old(promoCode)
      ensures bookingData == old(bookingData) && appliedPromo == old(appliedPromo)
      ensures promoLoading == old(promoLoading) && termsAccepted == old(termsAccepted)
    {
      if !termsAccepted {
        return None;
      }
      if bookingData.None? {
        return None;
      }
      loading := true;
      error := "";
      return Some(Payload(bookingData.value, fullName, email, appliedPromo));
    }

    /** The second half of `handleSubmit` (lines 102-118). A refusal shows the server's
        error (or "Booking failed"), a network failure its own message; a booking moves on
        to the result page and leaves the form as it is. */
    method CompleteSubmit(resp: SubmitResponse)
      requires Valid() && loading
      modifies this
      ensures Valid()
      ensures resp.Rejected? ==>
        error == (if resp.error.Some? && resp.error.value != "" then resp.error.value else "Booking failed")
      ensures resp.SubmitNetworkFailure? ==> error == "Failed to complete booking"
      ensures resp.Booked? ==> error == old(error)
      ensures !loading
      ensures fullName == old(fullName) && email == old(email) && promoCode == old(promoCode)
      ensures bookingData == old(bookingData) && appliedPromo == old(appliedPromo)
      ensures promoLoading == old(promoLoading) && termsAccepted == old(termsAccepted)
    {
      match resp {
        case Rejected(message) =>
          error := if message.Some? && message.value != "" then message.value else "Booking failed";
        case SubmitNetworkFailure =>
          error := "Failed to complete booking";
        case Booked(_) =>
      }
      loading := false;
    }
  }
}
