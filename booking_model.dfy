/** The Booking record (lib/models/Booking.js): a confirmed reservation with a snapshot
    of the experience title and the prices the customer saw. */
module BookingModel {
  import opened Wrappers

  /** The schema's `enum: ['confirmed', 'failed']`. */
  datatype Status = Confirmed | Failed

  datatype Booking = Booking(
    fullName: string,
    email: string,
    experienceId: string,
    experienceTitle: string,
    date: string,
    time: string,
    quantity: int,
    subtotal: int,
    taxes: int,
    promoCode: Option<string>,
    discountAmount: int,
    total: int,
    refId: string,
    status: Status,
    createdAt: int)

  /** The fields handed to `new Booking({...})`; `None` is a field left undefined. */
  datatype BookingFields = BookingFields(
    fullName: string,
    email: string,
    experienceId: string,
    experienceTitle: string,
    date: string,
    time: string,
    quantity: int,
    subtotal: int,
    taxes: int,
    promoCode: Option<string>,
    discountAmount: Option<int>,
    total: int,
    refId: string,
    status: Option<Status>)

  /** The required strings: an empty one fails validation. The required numbers are
      always present in `BookingFields`. */
  predicate HasRequiredFields(f: BookingFields) {
    f.fullName != "" && f.email != "" && f.experienceId != "" && f.experienceTitle != ""
    && f.date != "" && f.time != ""
  }

  /** `new Booking(f)` with the validation `save()` runs; `now` is the creation time.
      `discountAmount` defaults to 0, `status` to confirmed, `promoCode` stays optional. */
  function BuildBooking(f: BookingFields, now: int): (r: Option<Booking>)
    ensures r.Some? <==> HasRequiredFields(f)
    ensures r.Some? ==>
      && r.value.fullName == f.fullName && r.value.email == f.email
      && r.value.experienceId == f.experienceId && r.value.experienceTitle == f.experienceTitle
      && r.value.date == f.date && r.value.time == f.time && r.value.quantity == f.quantity
      && r.value.subtotal == f.subtotal && r.value.taxes == f.taxes && r.value.total == f.total
      && r.value.promoCode == f.promoCode && r.value.refId == f.refId && r.value.createdAt == now
    ensures r.Some? && f.discountAmount.None? ==> r.value.discountAmount == 0
    ensures r.Some? && f.discountAmount.Some? ==> r.value.discountAmount == f.discountAmount.value
    ensures r.Some? && f.status.None? ==> r.value.status == Confirmed
    ensures r.Some? && f.status.Some? ==> r.value.status == f.status.value
  {
    if HasRequiredFields(f) then
      Some(Booking(f.fullName, f.email, f.experienceId, f.experienceTitle, f.date, f.time,
        f.quantity, f.subtotal, f.taxes, f.promoCode, f.discountAmount.GetOr(0), f.total,
        f.refId, f.status.GetOr(Confirmed), now))
    else None
  }

  /** Some booking in `bookings` carries the reference `refId`. */
  predicate HasRefId(bookings: seq<Booking>, refId: string) {
    exists i | 0 <= i < |bookings| :: bookings[i].refId == refId
  }

  /** The unique index on `refId`: no two bookings share a reference. */
  ghost predicate UniqueRefIds(bookings: seq<Booking>) {
    forall i, j :: 0 <= i < j < |bookings| ==> bookings[i].refId != bookings[j].refId
  }

  /** Inserting a booking whose reference is not taken keeps references unique. */
  lemma InsertKeepsUniqueRefIds(bookings: seq<Booking>, b: Booking)
    requires UniqueRefIds(bookings)
    requires !HasRefId(bookings, b.refId)
    ensures UniqueRefIds(bookings + [b])
  {
    var s := bookings + [b];
    forall i, j | 0 <= i < j < |s| ensures s[i].refId != s[j].refId {
      if j == |bookings| {
        assert s[i] == bookings[i];
      }
    }
  }
}
