# bookit — a Dafny model of the booking and promo code core

bookit is a small web app for booking travel experiences. Customers pick an experience,
a date, a time slot and a number of seats, may apply a promo code, and confirm a booking.
Administrators maintain the promo codes. This project models the parts of the app that
decide something:

- **Booking handler** (`BookingsRoute`). It looks up the experience, the first entry for
  the requested date and the first slot for the requested time. It checks the remaining
  capacity, then raises the slot's booked count and inserts a confirmed Booking with a
  generated `HUF…` reference. The two collections are fields of the class
  `BookingService`, and `Post` updates them step by step as the handler does.
- **Promo validation** (`PromoValidateRoute`). This is a pure function over the promo
  code collection. Its guards run in order: active code found, not expired, usage limit
  not reached, minimum purchase met. A percentage discount is capped and then rounded; a
  flat discount is not capped.
- **Promo code creation and listing** (`AdminPromoCodesRoute`). `PromoCodeStore.Create`
  refuses a code whose upper-cased form is already stored, and otherwise inserts a record
  with the schema's defaults. `List` returns the codes newest first.
- **Record schemas** (`PromoCodeModel`, `ExperienceModel`, `BookingModel`). Each record
  is a datatype, and a build function applies the schema's required fields and defaults.
- **Checkout page** (`CheckoutPage`). It holds the price breakdown and the booking
  payload as functions. Its component state is the class `Checkout`, whose methods model
  the promo validation round trip and the submit round trip.
- **Admin promo codes page** (`AdminPromoCodesPage`). It checks the creation form and
  maps it to the request body, shows the expiry and usage labels, and keeps the list in
  step with creations and deletions (class `PromoCodesPage`). As in the source, a
  completed create or delete applies its change to the list it captured when it started,
  not to the list as it is when the response arrives.
- **Storefront search** (`HomePage`, `UserHomePage`). Both filter experiences by a
  case-insensitive substring match, and the home page shows a pluralised count line.

Helper modules: `Wrappers` (Option, Result, truthiness of an optional number) and `Text`
(ASCII case folding, substring search, JavaScript whitespace trimming, decimal rendering
and `parseInt`). `Seqs` provides filter with its subsequence and multiplicity properties,
and a descending sort.

Conventions:

- Timestamps are integers.
- Randomness and the clock are method parameters. `Post` receives the two
  `Math.random()` renderings; the current time is `now`.
- HTTP error responses are `Err` values of small error datatypes.
- A field a client leaves out is `None`.
- JavaScript numbers are integers. `Math.round(x / 100)` is `(x + 50) / 100` and
  `Math.round(x * 0.1)` is `(x + 5) / 10`. Both are exact half-up rounding for every
  integer, because Dafny's division rounds down.

Two facts about the code shape what the model can promise:

- The booking handler never checks that `quantity` is positive
  (app/api/bookings/route.js:33). A negative quantity passes the capacity check and
  lowers `booked` (`BookingsRoute.NegativeQuantityLowersBooked`), so staying within
  capacity is proved only for quantities that are not negative.
- No booking or validation path increments `usageCount`. The usage limit is therefore
  only reached by records stored or edited with a count, and validation only reads the
  store.

## Model

| member | source | states |
|---|---|---|
| BookingsRoute.GenerateRefId | app/api/bookings/route.js:7-13 | the reference is `HUF` followed by at most 8 characters from 0-9 and A-Z, so it is 3 to 11 characters long |
| Seqs.FirstIndex | app/api/bookings/route.js:27 | the index of the first element satisfying the predicate; none exactly when no element does |
| BookingsRoute.Message | app/api/bookings/route.js:22-66 | the `error` text of each response, never empty; a failed save answers with the thrown error's message, and "Failed to create booking" only when that message is empty |
| BookingsRoute.Reserve | app/api/bookings/route.js:27-38 | the checks and the slot update of the handler on one experience; it fails only with "Date not available" or "Slots not available", and otherwise keeps the experience's id and number of date entries (its exact effect is `ReserveUpdatesOnlyMatchedSlot`) |
| BookingsRoute.BookingFieldsFor | app/api/bookings/route.js:42-57 | the fields given to `new Booking`; what the stored record then holds is `BookingRecordFields` |
| BookingsRoute.DateIndex | app/api/bookings/route.js:27 | the index of the first entry with exactly the requested date; none exactly when no entry has it |
| BookingsRoute.SlotIndex | app/api/bookings/route.js:32 | the index of the first slot with exactly the requested time; none exactly when no slot has it |
| BookingsRoute.ReserveDateNotAvailable | app/api/bookings/route.js:27-30 | "Date not available" exactly when no entry of the experience has the date |
| BookingsRoute.ReserveSlotsNotAvailable | app/api/bookings/route.js:32-35 | given the first entry for the date, "Slots not available" exactly when it has no slot for the time or its first such slot has fewer than `quantity` seats left |
| BookingsRoute.ReserveUpdatesOnlyMatchedSlot | app/api/bookings/route.js:27-39 | a successful reservation raises `booked` of the first matching slot of the first matching date by exactly `quantity`; every other slot, date entry and experience field is unchanged |
| BookingsRoute.ReserveKeepsWithinCapacity | app/api/bookings/route.js:33-38 | if every slot had `0 <= booked <= available` and `quantity >= 0`, that still holds after a successful reservation |
| BookingsRoute.ReserveNeverOverbooks | app/api/bookings/route.js:33-38 | for any quantity, negative included, the raised slot ends with `booked` at or below `available` |
| BookingsRoute.NegativeQuantityLowersBooked | app/api/bookings/route.js:33-38 | a negative quantity passes the check on a slot within capacity and lowers its `booked` |
| BookingsRoute.BookingRecordFields | app/api/bookings/route.js:42-57 | the created Booking is confirmed, takes its title from the stored experience and copies every other field from the request; a missing discount becomes 0 |
| BookingsRoute.BookingService.Post | app/api/bookings/route.js:15-68 | an unknown id gives 404 and changes nothing; a date or slot refusal gives that error and changes nothing; otherwise the stored experience becomes the reserved one, and the booking is appended and returned, or, when a required field is empty or the reference is taken, a 500 carrying the thrown error's message leaves the bookings unchanged while the seats stay taken; references stay unique |
| BookingsRoute.EndToEndExample | app/api/bookings/route.js:15-60 | a worked booking: 3 seats of an empty 10-seat slot leave it with 3 booked and store a confirmed booking of 3 with a `HUF` reference |
| PromoValidateRoute.Validate | app/api/promo/validate/route.js:11-56 | the whole handler on the store; a success carries the upper-cased code and an expiry not before now, and a below-minimum refusal names a minimum above the amount (the guards themselves are `ValidateGuardOrder`) |
| PromoValidateRoute.DiscountAmount | app/api/promo/validate/route.js:39-54 | the capped, then rounded, percentage or the flat value; its bounds are `PercentageRespectsCap`, `PercentageWithinAmount` and `FlatIsNotCapped` |
| PromoValidateRoute.Message | app/api/promo/validate/route.js:17-34 | the four refusal texts; the below-minimum one names the minimum (`MessageNamesMinimum`) |
| PromoValidateRoute.FindActive | app/api/promo/validate/route.js:11-14 | the first record with exactly the code and the active flag; none exactly when no record matches |
| PromoValidateRoute.RoundDiv100 | app/api/promo/validate/route.js:54 | the integer nearest to `n / 100`, halves rounded up |
| PromoValidateRoute.MessageNamesMinimum | app/api/promo/validate/route.js:31-36 | the below-minimum message contains the minimum amount |
| PromoValidateRoute.ValidateInvalidCode | app/api/promo/validate/route.js:11-18 | "Invalid promo code" exactly when no active record carries the upper-cased code |
| PromoValidateRoute.ValidateGuardOrder | app/api/promo/validate/route.js:16-56 | for the record found, expired iff `now > expiryDate`; limit exceeded iff not expired and the limit is set, non-zero and reached; below minimum iff both earlier guards pass and the amount is under the minimum; success iff all pass, with the record's code, type, value and expiry and the computed amount |
| PromoValidateRoute.ValidAtExpiryInstant | app/api/promo/validate/route.js:21-23 | a code is not rejected as expired at its exact expiry time |
| PromoValidateRoute.ZeroUsageLimitIsUnlimited | app/api/promo/validate/route.js:26-28 | a usage limit of 0 gives the same answer as no limit |
| PromoValidateRoute.PercentageRespectsCap | app/api/promo/validate/route.js:40-44 | with a set, non-zero cap the amount never exceeds it; above the cap the amount is the cap, otherwise the rounded percentage |
| PromoValidateRoute.PercentageWithinAmount | app/api/promo/validate/route.js:39-54 | a percentage between 0 and 100 with no negative cap gives an amount between 0 and the total |
| PromoValidateRoute.FlatIsNotCapped | app/api/promo/validate/route.js:45-47 | a flat discount is its value, whatever the total |
| PromoValidateRoute.DiscountExamples | app/api/promo/validate/route.js:39-54 | 50% capped at 100 on 1000 gives 100; flat 150 gives 150; 15% of 999 gives 150 |
| AdminPromoCodesRoute.FieldsFor | app/api/admin/promo-codes/route.js:30-39 | the fields given to `new PromoCode`; what the stored record then holds is `CreatedRecord` |
| AdminPromoCodesRoute.CreatedRecord | app/api/admin/promo-codes/route.js:30-39 | the created record has the upper-cased code, minimum purchase 0 when the given one is falsy, no uses, the active flag, and the given cap and limit |
| AdminPromoCodesRoute.DuplicateIsCaseInsensitive | app/api/admin/promo-codes/route.js:22-28 | since all stored codes are upper case, the duplicate lookup finds a record exactly when a stored code equals the input up to case |
| AdminPromoCodesRoute.PromoCodeStore.List | app/api/admin/promo-codes/route.js:9 | every stored code, ordered by `createdAt` descending |
| AdminPromoCodesRoute.Message | app/api/admin/promo-codes/route.js:23-45 | the response's `error` text: "Promo code already exists" for a duplicate, the thrown error's message unchanged for a failed save |
| AdminPromoCodesRoute.PromoCodeStore.Create | app/api/admin/promo-codes/route.js:17-47 | an existing upper-cased code gives `CodeExists` (400, "Promo code already exists" by `Message`) and leaves the store unchanged; otherwise a valid record is appended (exactly one more) or validation fails with the 500 `SaveFailed` carrying the save error's message; codes stay unique and upper case |
| PromoCodeModel.BuildPromoCode | lib/models/PromoCode.js:3-14 | a record exists exactly when code, type, value and expiry are given; its code is upper case; minimum purchase and usage count default to 0 and the active flag to true, and supplied values are stored; cap and limit stay optional |
| ExperienceModel.BuildSlot | lib/models/Experience.js:14-18 | a slot needs a time and an available count; `booked` defaults to 0 |
| ExperienceModel.BuildSlots | lib/models/Experience.js:13-19 | the slots validate exactly when each does, in order |
| ExperienceModel.BuildDate | lib/models/Experience.js:11-20 | a date entry needs a date and valid slots |
| ExperienceModel.BuildDates | lib/models/Experience.js:10-21 | the date entries validate exactly when each does, in order |
| ExperienceModel.BuildExperience | lib/models/Experience.js:4-26 | title, description, location, image, price and about are required; `includesText` defaults to "Safety first with gear included"; both timestamps default to now |
| ExperienceModel.NewExperienceWithinCapacity | lib/models/Experience.js:16-17 | a new experience whose slots were given no `booked` count and no negative capacity has every slot within capacity |
| BookingModel.BuildBooking | lib/models/Booking.js:4-20 | a booking exists exactly when the required strings are non-empty; `discountAmount` defaults to 0 and `status` to confirmed; other fields are copied |
| BookingModel.InsertKeepsUniqueRefIds | lib/models/Booking.js:17 | inserting a booking whose reference is not taken keeps references unique |
| CheckoutPage.Subtotal | app/user/chechkout/page.jsx:129 | the price per person times the quantity |
| CheckoutPage.FinalTotal | app/user/chechkout/page.jsx:129-132 | subtotal plus taxes less the applied discount; its breakdown is `FinalTotalBreakdown` |
| CheckoutPage.Taxes | app/user/chechkout/page.jsx:130 | the integer nearest to a tenth of the subtotal, halves up |
| CheckoutPage.TaxesBounds | app/user/chechkout/page.jsx:130 | taxes on a non-negative subtotal lie between 0 and the subtotal |
| CheckoutPage.FinalTotalBreakdown | app/user/chechkout/page.jsx:129-132 | the total is subtotal plus taxes, less the applied discount (0 without a promo) |
| CheckoutPage.PercentageDiscountKeepsTotalAboveTaxes | app/user/chechkout/page.jsx:129-132 | a percentage discount validated against this subtotal leaves the total between the taxes and subtotal plus taxes |
| CheckoutPage.FlatDiscountCanMakeTotalNegative | app/user/chechkout/page.jsx:131-132 | a flat 100 on one 50-rupee seat gives a total of -45 |
| CheckoutPage.Payload | app/user/chechkout/page.jsx:81-94 | the promo code is sent iff a promo with a non-empty code is applied; the discount is the applied amount or 0; subtotal, taxes and total follow the breakdown; the other fields come from the form and the reservation |
| CheckoutPage.BookedPricesAddUp | app/user/chechkout/page.jsx:81-94 | a Booking the handler creates from this payload has total = subtotal + taxes - discount, the applied discount, and no promo or discount without a promo |
| CheckoutPage.Checkout.constructor | app/user/chechkout/page.jsx:12-29 | the form starts empty with no promo, nothing loading and terms unaccepted; the reservation is the session's |
| CheckoutPage.Checkout.SetFullName | app/user/chechkout/page.jsx:159 | only the name changes |
| CheckoutPage.Checkout.SetEmail | app/user/chechkout/page.jsx:170 | only the email changes |
| CheckoutPage.Checkout.SetTermsAccepted | app/user/chechkout/page.jsx:219 | only the terms flag changes |
| CheckoutPage.Checkout.SetPromoCode | app/user/chechkout/page.jsx:185-186 | the input becomes the upper-cased text unless a promo is applied; it stays upper case |
| CheckoutPage.Checkout.StartPromoValidation | app/user/chechkout/page.jsx:31-48 | a blank code sets "Please enter a promo code" and sends nothing; otherwise it sends the code with the subtotal (no taxes), sets loading and clears the error |
| CheckoutPage.Checkout.CompletePromoValidation | app/user/chechkout/page.jsx:50-64 | a refusal clears the promo and shows the server's error or "Invalid promo code"; a network failure clears it with its own message; an acceptance applies the promo and clears the error; loading ends |
| CheckoutPage.Checkout.Submit | app/user/chechkout/page.jsx:67-94 | runs only with a filled-in name and email and while not loading; without accepted terms or a reservation nothing is sent or changed; otherwise the current payload, with its non-empty name and email, is sent and loading starts |
| CheckoutPage.Checkout.CompleteSubmit | app/user/chechkout/page.jsx:102-118 | a refusal shows the server's error or "Booking failed"; a network failure shows "Failed to complete booking"; loading ends |
| AdminPromoCodesPage.BuildPayload | app/admin/promo-codes/page.jsx:61-75 | "Please fill all required fields" iff code, discount value or expiry is falsy; an invalid date fails; otherwise the code is upper-cased, the value parsed, empty cap and limit undefined and empty minimum 0 |
| AdminPromoCodesPage.Message | app/admin/promo-codes/page.jsx:62-95 | the form's two local error texts, for a missing field and for a date that cannot be converted |
| AdminPromoCodesPage.ZeroDiscountValue | app/admin/promo-codes/page.jsx:61-70 | the untouched value 0 counts as missing; a typed "0" passes and is sent as 0 |
| AdminPromoCodesPage.TypedNumbersArrive | app/admin/promo-codes/page.jsx:70-74 | decimal numbers typed into the value, cap, minimum and limit reach the request unchanged |
| AdminPromoCodesPage.ServerKeepsSentCode | app/admin/promo-codes/page.jsx:68 | the sent code is already upper case, so the server stores it as sent |
| AdminPromoCodesPage.IsExpired | app/admin/promo-codes/page.jsx:303-304 | a row is marked expired when its expiry lies before now; it agrees with validation by `ShownExpiredIffRejected` |
| AdminPromoCodesPage.ShownExpiredIffRejected | app/admin/promo-codes/page.jsx:303-304 | a row shows as expired iff validation would reject the code as expired; it is not shown expired at its expiry instant |
| AdminPromoCodesPage.UsageLabel | app/admin/promo-codes/page.jsx:340 | "used/limit" with ∞ for an unset or 0 limit; its shape is `UsageLabelShowsLimit` |
| AdminPromoCodesPage.UsageLabelShowsLimit | app/admin/promo-codes/page.jsx:340 | the label starts with the use count and a slash, and ends in ∞ exactly when the limit is unset or 0 |
| AdminPromoCodesPage.RefusalText | app/admin/promo-codes/page.jsx:90-91 | the refusal shown on the form: the body's `error` when truthy, otherwise "Failed to create promo code"; never empty |
| AdminPromoCodesPage.RouteRefusalShown | app/admin/promo-codes/page.jsx:90-91 | the create handler's refusal reaches the form as its text: "Promo code already exists" for a duplicate, the save error's message, or the page fallback for an empty message |
| AdminPromoCodesPage.PromoCodesPage.constructor | app/admin/promo-codes/page.jsx:9-22 | an empty list, loading, the form hidden with its initial values and no error |
| AdminPromoCodesPage.PromoCodesPage.OnFetched | app/admin/promo-codes/page.jsx:28-38 | a listed body becomes the list, a non-list body empties it, a failure keeps it; loading ends |
| AdminPromoCodesPage.PromoCodesPage.ToggleForm | app/admin/promo-codes/page.jsx:125 | only the form's visibility flips |
| AdminPromoCodesPage.PromoCodesPage.Cancel | app/admin/promo-codes/page.jsx:249-252 | the form is hidden and back to its initial values with no error; the list and loading flag stay |
| AdminPromoCodesPage.PromoCodesPage.SetCode | app/admin/promo-codes/page.jsx:154 | the code field takes the upper-cased text; nothing else changes |
| AdminPromoCodesPage.PromoCodesPage.SetInput | app/admin/promo-codes/page.jsx:40-42 | the one edited field takes the text; the others stay |
| AdminPromoCodesPage.PromoCodesPage.SetDiscountType | app/admin/promo-codes/page.jsx:165 | only the discount type changes |
| AdminPromoCodesPage.PromoCodesPage.ResetForm | app/admin/promo-codes/page.jsx:44-55 | the form returns to type percentage, value 0 and empty fields; the error is cleared |
| AdminPromoCodesPage.PromoCodesPage.StartSubmit | app/admin/promo-codes/page.jsx:57-81 | a missing field shows "Please fill all required fields" and sends nothing; an invalid date shows "Error creating promo code"; otherwise the built payload is sent with no error and the current list is remembered as the one the handler captured |
| AdminPromoCodesPage.PromoCodesPage.CompleteSubmit | app/admin/promo-codes/page.jsx:83-96 | a created promo is put in front of the list captured when the submit started, which keeps its order, and the form is reset and hidden; a refusal shows `RefusalText` of the body's error and a failure "Error creating promo code", both keeping the list |
| AdminPromoCodesPage.PromoCodesPage.StartDelete | app/admin/promo-codes/page.jsx:99-102 | a cancelled confirmation sends nothing and changes nothing; a confirmed one remembers the id and the current list |
| AdminPromoCodesPage.PromoCodesPage.CompleteDelete | app/admin/promo-codes/page.jsx:103-113 | after a successful delete the list is the captured list without exactly the records with that id, the rest keeping their order and multiplicity; a failure changes nothing |
| AdminPromoCodesPage.StaleListExample | app/admin/promo-codes/page.jsx:85 | a create pending while a delete completes puts the deleted record back, because it prepends to the list it captured |
| HomePage.FilterExperiences | app/page.jsx:45-50 | the experiences whose title, location or description contains the query ignoring case, as a subsequence of the input with the same multiplicities |
| HomePage.KeptIffMatches | app/page.jsx:45-50 | a listed experience is shown exactly when it matches |
| HomePage.EmptyQueryKeepsAll | app/page.jsx:45-50 | an empty query shows the whole list |
| HomePage.SearchRefetches | app/page.jsx:39-43 | a search refetches exactly when the query is blank |
| HomePage.CountLabel | app/page.jsx:144 | "Found n experience", with "s" unless n is 1 (`CountLabelPlural`) |
| HomePage.View | app/page.jsx:113-150 | a spinner while loading, the "nothing found" or "none available" message when nothing is left to show, otherwise the cards with the count line for a non-empty query |
| HomePage.CountLabelPlural | app/page.jsx:144 | the label names the count and ends in "s" exactly when the count is not 1 |
| HomePage.CountLineCounts | app/page.jsx:121-146 | once loaded, the cards are the filtered experiences; a count line is shown exactly when the query is not empty and something matches, and it names the number of cards, between 1 and the number of experiences |
| HomePage.NoMatchShowsSearchMessage | app/page.jsx:121-136 | a non-empty query that matches nothing shows "No experiences found matching your search" with the clear button, and no count line |
| HomePage.MatchShowsCard | app/page.jsx:148-150 | a matching experience makes the page show the cards, and its card is among them |
| UserHomePage.FilterExperiences | app/user/page.tsx:38-42 | the experiences whose title or location contains the query ignoring case, as a subsequence with the same multiplicities |
| UserHomePage.EmptyQueryKeepsAll | app/user/page.tsx:38-42 | an empty query shows the whole list |
| UserHomePage.NarrowerThanHomePage | app/user/page.tsx:38-42 | the result is a subsequence of the home page's result for the same query |
| UserHomePage.DescriptionOnlyMatch | app/user/page.tsx:40-41 | a query found only in a description is shown on the home page but not here |
| Text.ToUpper | lib/models/PromoCode.js:4 | ASCII upper-casing, letter by letter; it yields upper case (`ToUpperIsUpperCase`) |
| Text.Trim | app/user/chechkout/page.jsx:32 | JavaScript `trim`: the whitespace prefix and suffix removed; empty exactly for blank strings (`TrimEmptyIffBlank`) |
| Text.ParseInt | app/admin/promo-codes/page.jsx:70 | `parseInt` in base 10: leading whitespace, one sign, the longest digit run, `None` for NaN |
| Text.IntToString | app/page.jsx:144 | the decimal rendering of a template literal; it parses back to the number (`ParseIntOfIntToString`) |
| Text.ToUpperFixesUpperCase | lib/models/PromoCode.js:4 | upper-casing leaves a string unchanged exactly when it is already upper case, and is idempotent |
| Text.TrimEmptyIffBlank | app/user/chechkout/page.jsx:32 | a trimmed string is empty exactly when it holds only JavaScript whitespace |
| Text.Includes | app/page.jsx:47-49 | true exactly when the needle occurs at some position of the haystack |
| Text.IntToStringEndsInDigit | app/admin/promo-codes/page.jsx:340 | a number's decimal rendering is non-empty and ends in a digit, which tells the usage label's limit apart from ∞ |
| Text.ParseIntOfIntToString | app/admin/promo-codes/page.jsx:70 | parsing a number's decimal rendering gives the number back |
| Seqs.Filter | app/page.jsx:45 | a subsequence of the input holding each element that satisfies the predicate as often as the input does |
| Seqs.FilterMonotone | app/user/page.tsx:38-42 | filtering by a stronger predicate keeps a subsequence of what the weaker one keeps |
| Seqs.SortDesc | app/api/admin/promo-codes/route.js:9 | a permutation of the input sorted by the key, descending |

## Left out

- Database and HTTP plumbing (the connection, lookups, saves, responses and `fetch`). The collections are fields of the service classes; a response is a Result or a response datatype.
- Randomness and the clock. The two random draws of the reference generator and the current time are parameters. Reference uniqueness is not promised: a collision is modelled as the 500 the unique index causes.
- Floating point. Prices, discounts and amounts are integers with exact half-up rounding, which idealises `Math.round` on doubles.
- Case folding and number parsing cover ASCII letters only. `parseInt` is modelled for decimal text; its `0x` prefix form is not modelled.
- Cast errors. A malformed experience id, or a non-numeric JSON value sent where a number is expected, is not modelled. Request numbers are assumed present.
- Concurrency. The race between the capacity check and the save, and the non-atomic two-write booking, are outside this sequential model.
- React rendering, session storage, router navigation, `alert`/`confirm`, locale date and number formatting, and the checkout page's redirect when there is no reservation.
- The experiences listing handler and the other pages and layouts are not part of this model.
- The storefront pages' fetch round trip and error banner are not modelled; the home page's loading flag is a parameter of `HomePage.View`, and the user page is modelled by its search filter only.
- `BookingsRoute.BookingService`: the experience record is a nested datatype inside a map field, updated by replacing the record, rather than an object whose slot array is written in place.
- `BookingsRoute.BookingService.Post`: validation of the Booking's required numbers is left out, because request numbers are assumed present.
- `AdminPromoCodesPage.BuildPayload` and `AdminPromoCodesPage.PromoCodesPage.StartSubmit` do not convert the date text: `new Date(formData.expiryDate)` is the parameter `expiry` (the time denoted, `None` for an invalid date), so the model does not tie it to the form's `expiryDate` string.
- Date parsing on the server: `new Date(body.expiryDate)` is likewise the `expiryDate` field of `AdminPromoCodesRoute.CreateRequest`, already converted to a time (a JSON null is the epoch, time 0).
- `AdminPromoCodesPage.PromoCodesPage`: the page keeps one captured list per kind of pending request (`submitBase` for a create, `deleteId` and `deleteBase` for a delete). Two creates or two deletes in flight at once, each closing over its own render's list, are not modelled; a second start replaces the first's capture.
- A request to the promo-code handler without a `code` string (where `toUpperCase` throws a 500) is not modelled; `code` is always a string.
- `CheckoutPage.Checkout.Submit`: of the browser's checks on the form, only the non-empty name and email and the disabled button are modelled; the `type="email"` address format check is not, so an email without a valid address shape can reach the request.
