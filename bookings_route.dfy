/** The booking handler (app/api/bookings/route.js): find the experience, the first
    date entry for the requested date and in it the first slot for the requested time,
    refuse when the slot cannot take the quantity, otherwise raise the slot's `booked`
    count, save the experience and insert a confirmed Booking with a fresh reference. */
module BookingsRoute {
  import opened Wrappers
  import opened ExperienceModel
  import opened BookingModel
  import Text
  import Seqs

  /** The JSON body of the request. `None` is a field the client left out. */
  datatype BookingRequest = BookingRequest(
    experienceId: string,
    date: string,
    time: string,
    quantity: int,
    fullName: string,
    email: string,
    subtotal: int,
    taxes: int,
    promoCode: Option<string>,
    discountAmount: Option<int>,
    total: int)

  /** The error responses. `SaveFailed` is the 500 raised when `booking.save()` throws
      (a required field is empty or the generated reference is already taken); it carries
      the `message` of the thrown error. */
  datatype BookingError =
    | ExperienceNotFound
    | DateNotAvailable
    | SlotsNotAvailable
    | SaveFailed(message: string)

  function StatusCode(e: BookingError): int {
    match e
    case ExperienceNotFound => 404
    case DateNotAvailable => 400
    case SlotsNotAvailable => 400
    case SaveFailed(_) => 500
  }

  /** The `error` field of the response body. A failed save answers with the thrown
      error's message, and with "Failed to create booking" only when that is empty. */
  function Message(e: BookingError): (m: string)
    ensures e.SaveFailed? && e.message != "" ==> m == e.message
    ensures e.SaveFailed? && e.message == "" ==> m == "Failed to create booking"
    ensures m != ""
  {
    match e
    case ExperienceNotFound => "Experience not found"
    case DateNotAvailable => "Date not available"
    case SlotsNotAvailable => "Slots not available"
    case SaveFailed(message) => if message != "" then message else "Failed to create booking"
  }

  // ---------------------------------------------------------------------------
  // Reference ids

  predicate IsBase36Digit(c: char) { Text.IsDigit(c) || Text.IsAsciiLower(c) }

  /** What `Math.random().toString(36)` can print: `0`, or `0.` followed by base-36
      digits in lower case. */
  predicate IsRandomRendering(r: string) {
    r == "0" || (|r| >= 2 && r[..2] == "0." && forall i :: 2 <= i < |r| ==> IsBase36Digit(r[i]))
  }

  /** `s.substr(start, length)`: at most `length` characters from `start` on, and
      nothing when `start` is past the end. */
  function Substr(s: string, start: nat, length: nat): string {
    if start >= |s| then ""
    else if start + length <= |s| then s[start..start + length]
    else s[start..]
  }

  predicate IsReferenceChar(c: char) { Text.IsDigit(c) || Text.IsAsciiUpper(c) }

  /** `generateRefId()`, with the two random draws as parameters: `HUF`, then up to six
      and up to two characters of their base-36 renderings, upper-cased. */
  function GenerateRefId(random1: string, random2: string): (id: string)
    requires IsRandomRendering(random1) && IsRandomRendering(random2)
    ensures 3 <= |id| <= 11 && id[..3] == "HUF"
    ensures forall i :: 3 <= i < |id| ==> IsReferenceChar(id[i])
  {
    var a := Substr(random1, 2, 6);
    var b := Substr(random2, 2, 2);
    assert forall i :: 0 <= i < |a| ==> IsBase36Digit(a[i]);
    assert forall i :: 0 <= i < |b| ==> IsBase36Digit(b[i]);
    var id := "HUF" + Text.ToUpper(a) + Text.ToUpper(b);
    assert forall i :: 3 <= i < 3 + |a| ==> id[i] == Text.UpperChar(a[i - 3]);
    assert forall i :: 3 + |a| <= i < |id| ==> id[i] == Text.UpperChar(b[i - 3 - |a|]);
    id
  }

  // ---------------------------------------------------------------------------
  // Lookup: `Array.prototype.find`, which returns the first match

  /** The index of the first entry for `date`, if there is one. */
  function DateIndex(dates: seq<AvailableDate>, date: string): (r: Option<nat>)
    ensures r.Some? ==> r.value < |dates| && dates[r.value].date == date
    ensures r.Some? ==> forall k :: 0 <= k < r.value ==> dates[k].date != date
    ensures r.None? <==> forall k :: 0 <= k < |dates| ==> dates[k].date != date
  {
    Seqs.FirstIndex(dates, (d: AvailableDate) => d.date == date)
  }

  /** The index of the first slot for `time`, if there is one. */
  function SlotIndex(slots: seq<Slot>, time: string): (r: Option<nat>)
    ensures r.Some? ==> r.value < |slots| && slots[r.value].time == time
    ensures r.Some? ==> forall k :: 0 <= k < r.value ==> slots[k].time != time
    ensures r.None? <==> forall k :: 0 <= k < |slots| ==> slots[k].time != time
  {
    Seqs.FirstIndex(slots, (s: Slot) => s.time == time)
  }

  // ---------------------------------------------------------------------------
  // The reservation, on values

  /** `e` with `booked` of slot `j` of date entry `i` raised by `quantity`. */
  function AddBooked(e: Experience, i: nat, j: nat, quantity: int): Experience
    requires i < |e.availableDates| && j < |e.availableDates[i].slots|
  {
    var d := e.availableDates[i];
    var s := d.slots[j];
    e.(availableDates := e.availableDates[i := d.(slots := d.slots[j := s.(booked := s.booked + quantity)])])
  }

  /** Lines 27-38 of the handler on a stored experience: the experience as it is after
      the matched slot's booked count is raised by the quantity, or the error the handler
      answers with. */
  function Reserve(e: Experience, date: string, time: string, quantity: int): (r: Result<Experience, BookingError>)
    ensures r.Err? ==> r.error == DateNotAvailable || r.error == SlotsNotAvailable
    ensures r.Ok? ==> r.value.id == e.id && |r.value.availableDates| == |e.availableDates|
  {
    var di := DateIndex(e.availableDates, date);
    if di.None? then Err(DateNotAvailable)
    else
      var si := SlotIndex(e.availableDates[di.value].slots, time);
      if si.None? then Err(SlotsNotAvailable)
      else
        var slot := e.availableDates[di.value].slots[si.value];
        if slot.available - slot.booked < quantity then Err(SlotsNotAvailable)
        else Ok(AddBooked(e, di.value, si.value, quantity))
  }

  /** `date` is that of entry `i`, and of no entry before it. */
  predicate FirstDateAt(e: Experience, date: string, i: nat) {
    i < |e.availableDates| && e.availableDates[i].date == date
    && forall k :: 0 <= k < i ==> e.availableDates[k].date != date
  }

  /** `time` is that of slot `j` of entry `i`, and of no slot before it. */
  predicate FirstSlotAt(e: Experience, i: nat, time: string, j: nat)
    requires i < |e.availableDates|
  {
    j < |e.availableDates[i].slots| && e.availableDates[i].slots[j].time == time
    && forall k :: 0 <= k < j ==> e.availableDates[i].slots[k].time != time
  }

  /** The date is refused exactly when no entry has it (lines 27-30). */
  lemma ReserveDateNotAvailable(e: Experience, date: string, time: string, quantity: int)
    ensures Reserve(e, date, time, quantity) == Err(DateNotAvailable)
      <==> forall k :: 0 <= k < |e.availableDates| ==> e.availableDates[k].date != date
  {
  }

  /** Once the first entry for the date is found, the booking is refused exactly when
      that entry has no slot for the time or its first slot for the time has fewer than
      `quantity` seats left (lines 32-35). */
  lemma ReserveSlotsNotAvailable(e: Experience, date: string, time: string, quantity: int, i: nat)
    requires FirstDateAt(e, date, i)
    ensures Reserve(e, date, time, quantity) == Err(SlotsNotAvailable) <==>
      (forall k :: 0 <= k < |e.availableDates[i].slots| ==> e.availableDates[i].slots[k].time != time)
      || (exists j: nat :: FirstSlotAt(e, i, time, j)
            && e.availableDates[i].slots[j].available - e.availableDates[i].slots[j].booked < quantity)
  {
    var di := DateIndex(e.availableDates, date);
    assert di == Some(i);
    var si := SlotIndex(e.availableDates[i].slots, time);
    if si.Some? {
      assert FirstSlotAt(e, i, time, si.value);
      forall j: nat | FirstSlotAt(e, i, time, j) ensures j == si.value {
      }
    }
  }

  /** A successful reservation raises `booked` of the first slot for the time in the
      first entry for the date by exactly `quantity` and changes nothing else: every
      other slot, every other entry and every other field stay as they were. */
  lemma ReserveUpdatesOnlyMatchedSlot(e: Experience, date: string, time: string, quantity: int)
    requires Reserve(e, date, time, quantity).Ok?
    ensures exists i: nat, j: nat ::
      && FirstDateAt(e, date, i) && FirstSlotAt(e, i, time, j)
      && Reserve(e, date, time, quantity).value == AddBooked(e, i, j, quantity)
    ensures var e' := Reserve(e, date, time, quantity).value;
      && e'.(availableDates := e.availableDates) == e
      && |e'.availableDates| == |e.availableDates|
      && forall i :: 0 <= i < |e.availableDates| ==>
           && e'.availableDates[i].date == e.availableDates[i].date
           && |e'.availableDates[i].slots| == |e.availableDates[i].slots|
           && forall j :: 0 <= j < |e.availableDates[i].slots| ==>
                var s, s' := e.availableDates[i].slots[j], e'.availableDates[i].slots[j];
                && s'.time == s.time && s'.available == s.available
                && s'.booked == if FirstDateAt(e, date, i) && FirstSlotAt(e, i, time, j)
                                then s.booked + quantity else s.booked
  {
    var i := DateIndex(e.availableDates, date).value;
    var j := SlotIndex(e.availableDates[i].slots, time).value;
    assert FirstDateAt(e, date, i) && FirstSlotAt(e, i, time, j);
    var e' := Reserve(e, date, time, quantity).value;
    assert e' == AddBooked(e, i, j, quantity);
    forall i0, j0 | 0 <= i0 < |e.availableDates| && 0 <= j0 < |e.availableDates[i0].slots|
      ensures (FirstDateAt(e, date, i0) && FirstSlotAt(e, i0, time, j0)) <==> (i0 == i && j0 == j)
    {
    }
  }

  /** Whatever the quantity, negative included, the capacity check leaves the slot it
      raises with `booked` at or below `available`. */
  lemma ReserveNeverOverbooks(e: Experience, date: string, time: string, quantity: int)
    requires Reserve(e, date, time, quantity).Ok?
    ensures var e' := Reserve(e, date, time, quantity).value;
      var i := DateIndex(e.availableDates, date).value;
      var j := SlotIndex(e.availableDates[i].slots, time).value;
      && i < |e'.availableDates| && j < |e'.availableDates[i].slots|
      && e'.availableDates[i].slots[j].booked <= e'.availableDates[i].slots[j].available
  {
    ReserveUpdatesOnlyMatchedSlot(e, date, time, quantity);
  }

  /** The upper bound holds for any quantity (`ReserveNeverOverbooks`); the lower bound
      needs a quantity that is not negative, which never lowers `booked`. Together they
      keep an experience within capacity. */
  lemma ReserveKeepsWithinCapacity(e: Experience, date: string, time: string, quantity: int)
    requires WithinCapacity(e)
    requires quantity >= 0
    requires Reserve(e, date, time, quantity).Ok?
    ensures WithinCapacity(Reserve(e, date, time, quantity).value)
  {
    ReserveUpdatesOnlyMatchedSlot(e, date, time, quantity);
    var e' := Reserve(e, date, time, quantity).value;
    var i := DateIndex(e.availableDates, date).value;
    var j := SlotIndex(e.availableDates[i].slots, time).value;
    assert e'.availableDates[i].slots[j].booked + 0 <= e'.availableDates[i].slots[j].available;
  }

  /** The handler does not check the sign of `quantity`: a negative quantity passes the
      capacity check of any slot within capacity and lowers its `booked` count. */
  lemma NegativeQuantityLowersBooked(e: Experience, date: string, time: string, quantity: int, i: nat, j: nat)
    requires quantity < 0
    requires FirstDateAt(e, date, i) && FirstSlotAt(e, i, time, j)
    requires e.availableDates[i].slots[j].booked <= e.availableDates[i].slots[j].available
    ensures Reserve(e, date, time, quantity).Ok?
    ensures Reserve(e, date, time, quantity).value.availableDates[i].slots[j].booked
      < e.availableDates[i].slots[j].booked
  {
    var di := DateIndex(e.availableDates, date);
    assert di == Some(i);
    var si := SlotIndex(e.availableDates[i].slots, time);
    assert si == Some(j);
  }

  /** Lines 42-57: the Booking the handler inserts for a request. The title comes from
      the stored experience, the status is confirmed, everything else is the request's. */
  function BookingFieldsFor(body: BookingRequest, title: string, refId: string): BookingFields {
    BookingFields(body.fullName, body.email, body.experienceId, title, body.date, body.time,
      body.quantity, body.subtotal, body.taxes, body.promoCode, body.discountAmount,
      body.total, refId, Some(Confirmed))
  }

  lemma BookingRecordFields(body: BookingRequest, e: Experience, refId: string, now: int)
    requires BuildBooking(BookingFieldsFor(body, e.title, refId), now).Some?
    ensures var b := BuildBooking(BookingFieldsFor(body, e.title, refId), now).value;
      && b.status == Confirmed && b.experienceTitle == e.title && b.refId == refId
      && b.fullName == body.fullName && b.email == body.email
      && b.experienceId == body.experienceId && b.date == body.date && b.time == body.time
      && b.quantity == body.quantity && b.subtotal == body.subtotal && b.taxes == body.taxes
      && b.promoCode == body.promoCode && b.total == body.total
      && b.discountAmount == body.discountAmount.GetOr(0)
  {
  }

  // ---------------------------------------------------------------------------
  // The handler, on the two stores

  class BookingService {
    /** The Experience collection, by id. */
    var experiences: map<string, Experience>
    /** The Booking collection, in insertion order. */
    var bookings: seq<Booking>

    ghost predicate Valid()
      reads this
    {
      UniqueRefIds(bookings)
    }

    constructor (experiences: map<string, Experience>, bookings: seq<Booking>)
      requires UniqueRefIds(bookings)
      ensures Valid()
      ensures this.experiences == experiences && this.bookings == bookings
    {
      this.experiences := experiences;
      this.bookings := bookings;
    }

    /** `POST /api/bookings`. `random1` and `random2` are the two `Math.random()` draws
        of `generateRefId` as `toString(36)` prints them; `now` is the clock;
        `saveError` is the message of the error the store throws when it refuses the
        booking (the database's wording is not modelled). */
    method Post(body: BookingRequest, random1: string, random2: string, now: int, saveError: string)
      returns (res: Result<Booking, BookingError>)
      requires Valid()
      requires IsRandomRendering(random1) && IsRandomRendering(random2)
      modifies this
      ensures Valid()
      ensures body.experienceId !in old(experiences) ==>
        res == Err(ExperienceNotFound) && experiences == old(experiences) && bookings == old(bookings)
      ensures body.experienceId in old(experiences) ==>
        var stored := old(experiences)[body.experienceId];
        var reserved := Reserve(stored, body.date, body.time, body.quantity);
        var refId := GenerateRefId(random1, random2);
        var booking := BuildBooking(BookingFieldsFor(body, stored.title, refId), now);
        if reserved.Err? then
          res == Err(reserved.error) && experiences == old(experiences) && bookings == old(bookings)
        else
          && experiences == old(experiences)[body.experienceId := reserved.value]
          && if booking.Some? && !HasRefId(old(bookings), refId) then
               res == Ok(booking.value) && bookings == old(bookings) + [booking.value]
             else
               res == Err(SaveFailed(saveError)) && bookings == old(bookings)
    {
      if body.experienceId !in experiences {
        return Err(ExperienceNotFound);
      }
      var experience := experiences[body.experienceId];

      var dateIndex := DateIndex(experience.availableDates, body.date);
      if dateIndex.None? {
        return Err(DateNotAvailable);
      }
      var dateData := experience.availableDates[dateIndex.value];

      var slotIndex := SlotIndex(dateData.slots, body.time);
      if slotIndex.None? {
        return Err(SlotsNotAvailable);
      }
      var slot := dateData.slots[slotIndex.value];
      if slot.available - slot.booked < body.quantity {
        return Err(SlotsNotAvailable);
      }

      // raise the slot's count in place and save the experience
      slot := slot.(booked := slot.booked + body.quantity);
      dateData := dateData.(slots := dateData.slots[slotIndex.value := slot]);
      experience := experience.(availableDates := experience.availableDates[dateIndex.value := dateData]);
      experiences := experiences[body.experienceId := experience];

      var refId := GenerateRefId(random1, random2);
      var booking := BuildBooking(BookingFieldsFor(body, experience.title, refId), now);
      if booking.None? || HasRefId(bookings, refId) {
        // the insert fails after the experience was saved: the seats stay taken
        return Err(SaveFailed(saveError));
      }
      InsertKeepsUniqueRefIds(bookings, booking.value);
      bookings := bookings + [booking.value];
      return Ok(booking.value);
    }
  }

  /** The end-to-end case: with one date holding one empty slot of 10 seats, booking 3
      seats leaves the slot with 3 booked and inserts a confirmed booking of 3. */
  method EndToEndExample(id: string)
    requires id != ""
  {
    var e := Experience(id, "Kayaking", "River trip", "Udupi", "k.jpg", 999,
      [AvailableDate("2025-12-01", [Slot("10:00", 10, 0)])], "About", DefaultIncludesText, 0, 0);
    var service := new BookingService(map[id := e], []);
    var body := BookingRequest(id, "2025-12-01", "10:00", 3, "Ann", "ann@example.com",
      2997, 300, None, None, 3297);
    var res := service.Post(body, "0.4fzyo82mvyr", "0.k3j", 1, "duplicate key");
    assert Reserve(e, "2025-12-01", "10:00", 3).Ok?;
    assert service.experiences[id].availableDates[0].slots[0].booked == 3;
    assert res.Ok? && res.value.quantity == 3 && res.value.status == Confirmed;
    assert res.value.refId[..3] == "HUF";
  }
}
