# Storage-space marketplace: date-range capacity engine

A model, in Dafny, of the part of the storage-space rental marketplace that
decides whether items fit in a space over a range of days. Each space has a
capacity per size tier (small, medium, large). A reservation holds some
items of each tier over an inclusive range of days. For a requested range,
the engine:

1. enumerates the days of the range;
2. sums, per tier, the quantities of the reservations active on each day;
3. takes the peak of these daily sums;
4. reports capacity minus peak.

The search endpoint leaves that difference unclamped. The booking pages clamp
it at 0.

Around the engine the model covers:

- the search endpoint (`search-availability`);
- the booking modal, with its three steps, quantity clamp, price and payment
  payload;
- the book-space page, with its quantity reset and hand-over state;
- the search page, with its guard chain, capacity-only fallback and
  estimated price;
- the item-verification page, with one photo slot per unit;
- the owner's month calendar, with its Monday-first grid, reserved-day test
  and month buttons.

Modules, one per file:

| file | module | what it holds |
|---|---|---|
| `basics.dfy` | `Basics` | `Option`, `x \|\| 0`, `Filter` with its lemmas |
| `domain.dfy` | `Domain` | tiers, spaces, reservations, requests |
| `engine.dfy` | `Engine` | day ranges, daily usage, peak, clamped availability, the live-reservation feed |
| `search_availability.dfy` | `SearchAvailability` | the search endpoint |
| `pricing.dfy` | `Pricing` | day counts and totals |
| `items.dfy` | `ItemSlots` | photo slots |
| `booking_modal.dfy` | `BookingModalPage` | class `BookingModal` |
| `user_book_space.dfy` | `UserBookSpacePage` | class `UserBookSpace` |
| `user_search.dfy` | `UserSearchPage` | class `UserSearch` |
| `user_verify_items.dfy` | `UserVerifyItemsPage` | class `UserVerifyItems` |
| `gregorian.dfy` | `Gregorian` | month lengths, day ordinals, weekdays |
| `iso_dates.dfy` | `IsoDates` | `YYYY-MM-DD` strings and JavaScript string order |
| `calendar.dfy` | `CalendarPage` | class `CalendarView` |

How the model represents the source:

- **Days.** The engine works on day ordinals (`Day = int`). The source compares
  `YYYY-MM-DD` strings. `IsoDates.DateStringOrder` proves that for four-digit
  years this string order is the chronological order. `Gregorian.ChronologicalOrder`
  proves that chronological order is the ordinal order.
- **Missing values.** JavaScript's `x || 0` on a nullable column is `OrZero` over
  `Option`. A field of the classifier's parsed JSON is a `Count`: `Undefined`,
  `Null` or `Num(n)`, because the two absent forms differ in JavaScript. A
  comparison with `undefined` is false, while `null` compares as 0. A product
  with `undefined` is NaN, and the model represents it as `None`. A product
  with `null` is 0.
- **Component state.** A component's state is a class whose methods are its
  handlers and effects.
- **External answers.** What a handler receives from outside becomes a
  parameter. This covers fetch answers, the classifier's answer, the file
  reader's data URL, the signed-in user and today's date.

The code and the design description disagree in a few places; the model
follows the code:

- The search endpoint counts rejected reservations too (`RejectedReservationStillBlocks`).
- The search endpoint does not clamp the remaining capacity at 0
  (`OverCommittedExcluded`).
- The booking pages' reservation feed also drops reservations that ended
  before today. `ClientFeedHarmlessForFutureRanges` shows this changes
  nothing for ranges that start today or later.

## Model

| member | source | states |
|---|---|---|
| Engine.GetDates | functions/api/search-availability.ts:33-42 | the loop yields exactly the inclusive day range from `s` to `e` |
| Engine.DaysFromFacts | functions/api/search-availability.ts:33-42 | the range has `e - s + 1` days (none when `s > e`), holds exactly the days between `s` and `e`, and is strictly increasing |
| Engine.PeakUsage | functions/api/search-availability.ts:51-72 | the nested loops compute, per tier, the maximum over the days of the summed quantities of the reservations active that day |
| Engine.PeakNonNegative | functions/api/search-availability.ts:51-53 | the peak starts at 0 and never goes below it |
| Engine.PeakDominatesEveryDay | functions/api/search-availability.ts:55-71 | no day of the range uses more than the peak |
| Engine.PeakIsAttained | functions/api/search-availability.ts:69-71 | a non-zero peak is the usage of some day of the range |
| Engine.PeakWithoutReservations | functions/api/search-availability.ts:51-72 | with no reservation the peak is 0 on every tier |
| Engine.PeakDependsOnUsage | functions/api/search-availability.ts:55-71 | two reservation lists with the same daily usage have the same peak |
| Engine.FilterKeepsUsage | functions/api/search-availability.ts:61-66 | dropping reservations that are inactive on a day leaves that day's usage unchanged |
| Engine.DisjointReservationsPeak | functions/api/search-availability.ts:55-71 | two reservations on disjoint days count by the larger of their peaks, not by their sum |
| Engine.AddingReservationRaisesPeak | functions/api/search-availability.ts:61-66 | one more reservation with non-negative quantities never lowers the peak |
| Engine.ComputeClientAvailability | src/components/BookingModal.tsx:162-205 | the client copy returns zeros without both dates or on an inverted range, else capacity minus peak clamped at 0 |
| Engine.ClientAvailabilityBounds | src/components/BookingModal.tsx:200-204 | with non-negative capacities, availability lies between 0 and the capacity on every tier |
| Engine.ClientAvailabilityWithoutReservations | src/components/BookingModal.tsx:182-204 | with no reservation, availability over a valid range is the capacity |
| Engine.ClientAvailabilityIsBusiestDay | src/pages/user/UserBookSpace.tsx:86-108 | each tier is `max(0, capacity - p)` where `p` bounds every day's usage and is reached on some day or is 0 |
| Engine.ClientAvailabilityAntitone | src/components/BookingModal.tsx:187-197 | one more reservation never raises the availability |
| Engine.ClientFeedHarmlessForFutureRanges | functions/api/get-space-reservations.ts:20-23 | for a range starting today or later, dropping reservations that ended before today does not change the availability |
| Engine.RejectedNeverInClientFeed | functions/api/get-space-reservations.ts:20-23 | the feed behind the booking pages never holds a rejected reservation |
| SearchAvailability.Search | functions/api/search-availability.ts:13-15 | the answer is the missing-dates error exactly when a date is missing, else a list no longer than the spaces |
| SearchAvailability.OnRequestPost | functions/api/search-availability.ts:7-86 | the handler's filter loop answers what `Search` specifies |
| SearchAvailability.SpaceFits | functions/api/search-availability.ts:46-84 | a space fits iff on every tier the request is at most capacity minus the peak of that space's overlapping reservations |
| SearchAvailability.SearchMembership | functions/api/search-availability.ts:74-83 | a space is returned iff it is listed and on every tier the request is at most capacity minus peak, unclamped |
| SearchAvailability.SearchKeepsOrder | functions/api/search-availability.ts:46 | the result is a subsequence of the spaces, in their order |
| SearchAvailability.SearchMonotone | functions/api/search-availability.ts:79-83 | lowering the requested quantities only adds spaces; the larger request's result is a subsequence of the smaller one's |
| SearchAvailability.OverCommittedExcluded | functions/api/search-availability.ts:75-83 | a space whose peak exceeds its capacity on some tier is never returned, even for a request of 0 on that tier |
| SearchAvailability.InvertedRangeUsesRawCapacity | functions/api/search-availability.ts:33-43 | on an inverted range no day is checked, so a space is returned iff its raw capacity covers the request |
| SearchAvailability.OverlapQueryKeepsUsage | functions/api/search-availability.ts:25-28 | the overlap prefilter keeps every reservation active on a day of the window |
| SearchAvailability.SearchSeesAllRows | functions/api/search-availability.ts:25-28 | the answer equals the filter over all reservation rows: the prefilter only saves work |
| SearchAvailability.OtherSpacesIgnored | functions/api/search-availability.ts:48 | reservations of other spaces never count for a space |
| SearchAvailability.ServerVersusClientOnValidRange | functions/api/search-availability.ts:75-83 | on a valid range the endpoint accepts a request iff it is within the pages' clamped availability and the space is not over-committed |
| SearchAvailability.InvertedRangeDisagreement | functions/api/search-availability.ts:33-43 | on an inverted range the pages offer nothing while the endpoint offers the full capacity |
| SearchAvailability.RejectedReservationStillBlocks | functions/api/search-availability.ts:25-86 | a space whose only reservation is rejected is still left out when that reservation, on some day of the window, leaves less of a tier than requested |
| Pricing.InclusiveDays | src/components/BookingModal.tsx:212-215 | the day count is at least 1 and is the length of the inclusive day range, in either order of the dates |
| Pricing.EstimatedDays | src/pages/user/UserSearch.tsx:306-308 | the estimate's day count is at least 1, the inclusive count on a valid range and 1 on an inverted one |
| Pricing.DailyTotalNonNegative | src/components/BookingModal.tsx:217-220 | non-negative quantities and prices give a non-negative daily total |
| Pricing.BookingTotalFacts | src/components/BookingModal.tsx:210-223 | the total is 0 without both dates, symmetric in the dates, the daily total times the inclusive days, one daily total for one day, and non-negative for non-negative inputs |
| Pricing.BookingTotalAdditive | src/components/BookingModal.tsx:217-222 | the total of two selections together is the sum of their totals |
| Pricing.EstimatedTotal | src/pages/user/UserSearch.tsx:310-315 | the estimate is a number exactly when no tier of the classifier's answer is left out (`null` counts) |
| Pricing.NullTierPricesAsZero | src/pages/user/UserSearch.tsx:310-313 | a `null` tier prices like 0, while a tier left out makes the whole estimate NaN |
| Pricing.CalculatorsOnRanges | src/pages/user/UserSearch.tsx:305-316 | on a valid range the search page's estimate equals the booking pages' total for the same quantities |
| Pricing.ThreeDayExample | src/components/BookingModal.tsx:210-223 | 1 small at 2 and 2 large at 10 for days 1-3 cost 66 |
| ItemSlots.Expand | src/components/BookingModal.tsx:265-270 | the three loops build the slot list `Slots(q)` |
| ItemSlots.SlotsShape | src/pages/user/UserVerifyItems.tsx:29-34 | there are `small + medium + large` slots: small ones, then medium, then large, each indexed from 1 and without a file |
| ItemSlots.SlotsPerTier | src/components/BookingModal.tsx:267-269 | each tier gets exactly as many slots as units requested, none for a negative count |
| ItemSlots.WithFile | src/pages/user/UserVerifyItems.tsx:37-51 | choosing a file sets only that slot's file and preview (cleared without a file); every other slot is unchanged |
| ItemSlots.Photos | src/components/BookingModal.tsx:336 | one photo per slot, in slot order |
| BookingModalPage.Clamp | src/components/BookingModal.tsx:226-232 | the clamped selection is within both the availability and the selection, each tier keeps its value or takes the availability, and an admissible selection is untouched |
| BookingModalPage.NextVerdict | src/components/BookingModal.tsx:235-262 | proceeding needs a user, both dates, a stay of at least the minimum and a non-empty selection, and these suffice |
| BookingModalPage.PaymentStatusFor | src/components/BookingModal.tsx:350 | `requires_capture` exactly when a payment id is given, else `pending_approval`, never `paid` |
| BookingModalPage.PaymentIntentId | src/components/BookingModal.tsx:349 | the given non-empty payment id, and `"paypal_mock_id"` in every other case; never empty |
| BookingModalPage.BookingModal.constructor | src/components/BookingModal.tsx:127-148 | the modal opens at step 1 with the initial dates and quantities, no reservations, no slots, card payment |
| BookingModalPage.BookingModal.LoadReservations | src/components/BookingModal.tsx:151-159 | a successful fetch replaces the reservations; a failed one keeps them |
| BookingModalPage.BookingModal.ClampQuantities | src/components/BookingModal.tsx:226-232 | with both dates set the selection becomes its clamp to the availability; otherwise it is unchanged |
| BookingModalPage.BookingModal.Next | src/components/BookingModal.tsx:235-273 | the outcome is `NextVerdict`; proceeding from step 1 builds the slots of the selection and moves to step 2; nothing else changes |
| BookingModalPage.BookingModal.FileChange | src/components/BookingModal.tsx:276-290 | the slots become `WithFile` of the old slots |
| BookingModalPage.BookingModal.Back | src/components/BookingModal.tsx:292-295 | step 3 goes to 2, step 2 to 1, step 1 stays |
| BookingModalPage.BookingModal.GoToPayment | src/components/BookingModal.tsx:298-327 | refused while a slot lacks a file; else the intent is asked for the current total, and only a client secret moves to step 3 |
| BookingModalPage.BookingModal.FinalSubmit | src/components/BookingModal.tsx:330-351 | nothing without a user; else the body carries the dates, quantities, photos, status pending and the payment fields |
| BookingModalPage.BookingModal.SelectPaymentMethod | src/components/BookingModal.tsx:560-571 | the card and PayPal buttons set the payment method and nothing else |
| BookingModalPage.BookingModal.PayWithPayPal | src/components/BookingModal.tsx:588-594 | with PayPal selected, the button posts a body (for a signed-in user) paid via PayPal with the mock intent id and held for capture |
| BookingModalPage.ClampRespectsAvailability | src/components/BookingModal.tsx:226-232 | the clamp respects the availability and is idempotent |
| BookingModalPage.ProceedingSelectionFits | src/components/BookingModal.tsx:226-271 | after the clamp on a valid range the selection is within availability and capacity, and a selection that proceeds yields `small + medium + large > 0` slots |
| UserBookSpacePage.ResetOver | src/pages/user/UserBookSpace.tsx:154-158 | a quantity above the availability becomes 0, the others are kept, and the result is within a non-negative availability |
| UserBookSpacePage.UserBookSpace.constructor | src/pages/user/UserBookSpace.tsx:30-39 | no space, no reservations, no dates, nothing selected |
| UserBookSpacePage.UserBookSpace.Availability | src/pages/user/UserBookSpace.tsx:63-64 | nothing is available before the space is loaded |
| UserBookSpacePage.UserBookSpace.TotalPrice | src/pages/user/UserBookSpace.tsx:114-115 | the total is 0 before the space is loaded |
| UserBookSpacePage.UserBookSpace.Load | src/pages/user/UserBookSpace.tsx:42-60 | each successful fetch replaces its field; a failed one keeps it |
| UserBookSpacePage.UserBookSpace.InitDates | src/pages/user/UserBookSpace.tsx:137-151 | both query dates are taken and locked; otherwise unset dates become today and tomorrow; set dates are kept |
| UserBookSpacePage.UserBookSpace.ResetQuantities | src/pages/user/UserBookSpace.tsx:154-158 | the selection becomes `ResetOver` of the old selection and the availability |
| UserBookSpacePage.UserBookSpace.HandleReserve | src/pages/user/UserBookSpace.tsx:160-192 | refuses a missing space, user or date and an empty selection, with no minimum-stay check; else hands over exactly the ids, name, dates and quantities |
| UserBookSpacePage.ResetVersusClamp | src/pages/user/UserBookSpace.tsx:154-158 | above a positive availability, the modal keeps the availability while this page drops to 0 |
| UserBookSpacePage.MinimumStayOnlyInModal | src/pages/user/UserBookSpace.tsx:160-177 | the modal refuses a one-day stay under a two-day minimum that this page lets through |
| UserVerifyItemsPage.SubmissionBody | src/pages/user/UserVerifyItems.tsx:63-78 | the body copies ids, dates and quantities from the state, has one photo per slot in order, status pending and no payment |
| UserVerifyItemsPage.UserVerifyItems.constructor | src/pages/user/UserVerifyItems.tsx:15-21 | the page starts with the navigation state and no slots |
| UserVerifyItemsPage.UserVerifyItems.Init | src/pages/user/UserVerifyItems.tsx:23-35 | without state the page redirects and builds nothing; else the slots are those of the state's quantities |
| UserVerifyItemsPage.UserVerifyItems.FileChange | src/pages/user/UserVerifyItems.tsx:37-51 | the slots become `WithFile` of the old slots |
| UserVerifyItemsPage.UserVerifyItems.HandleSubmit | src/pages/user/UserVerifyItems.tsx:53-78 | refused exactly when some slot has no file; else the body is `SubmissionBody` |
| UserVerifyItemsPage.PhotoPerUnit | src/pages/user/UserVerifyItems.tsx:29-63 | after any file choice the body still carries one photo per requested unit |
| UserVerifyItemsPage.FreshSlotsBlockSubmission | src/pages/user/UserVerifyItems.tsx:29-58 | freshly built slots of a non-empty selection cannot be submitted |
| UserSearchPage.ServerRequest | src/pages/user/UserSearch.tsx:154-160 | the body carries both dates and each requirement or 0 |
| UserSearchPage.UserSearch.constructor | src/pages/user/UserSearch.tsx:53-73 | after the initial load both lists hold all spaces, with no query, requirements or dates |
| UserSearchPage.UserSearch.HandleSearch | src/pages/user/UserSearch.tsx:118-185 | a blank query shows all spaces and clears the requirements; missing or inverted dates and an empty classification abort without change; otherwise the requirements are stored and the body sent is `ServerRequest`; an `ok` answer's list is shown, an answer without `ok` shows the capacity fallback, and a thrown request keeps the shown list |
| UserSearchPage.FallbackMembership | src/pages/user/UserSearch.tsx:169-176 | the fallback keeps, in order, exactly the spaces whose capacity covers all three requirements, `null` comparing as 0; a requirement left out keeps none |
| UserSearchPage.NullVersusUndefined | src/pages/user/UserSearch.tsx:169-176 | an all-`null` answer keeps every space with non-negative capacity; one tier left out keeps none |
| UserSearchPage.FallbackIsCapacityOnly | src/pages/user/UserSearch.tsx:169-176 | every space the fallback keeps is one the endpoint would return with no reservations |
| UserSearchPage.SentRequestIsWellFormed | src/pages/user/UserSearch.tsx:127-160 | every body the page sends reaches the endpoint's filter, never its missing-dates branch |
| Gregorian.MonthLength | src/pages/owner/OwnerSpaceAnalytics.tsx:11 | a month has 28 to 31 days |
| Gregorian.YearStep | src/pages/owner/OwnerSpaceAnalytics.tsx:11-12 | the closed-form count of days before a year grows by 366 in leap years and 365 otherwise |
| Gregorian.ChronologicalOrder | src/pages/owner/OwnerSpaceAnalytics.tsx:12 | on valid dates the day ordinal orders and tells apart dates as (year, month, day) |
| Gregorian.NextMonthFollows | src/pages/owner/OwnerSpaceAnalytics.tsx:11-12 | the first of the next month, across December too, is the day after the last day of the month |
| Gregorian.WeekdayOfDay | src/pages/owner/OwnerSpaceAnalytics.tsx:12 | within a month the weekday advances by one per day |
| Gregorian.KnownDates | src/pages/owner/OwnerSpaceAnalytics.tsx:11-12 | 2024-01-01 is a Monday; February has 29 days in 2024 and 2000 and 28 in 1900 |
| IsoDates.NatString | src/pages/owner/OwnerSpaceAnalytics.tsx:27 | `String(n)` is a non-empty string of digits, of length 1 exactly for `n < 10` |
| IsoDates.PadStart2 | src/pages/owner/OwnerSpaceAnalytics.tsx:27 | `padStart(2, '0')` keeps strings of length 2 or more and left-pads shorter ones to length 2 with `'0'` |
| IsoDates.StrLtTotal | src/pages/owner/OwnerSpaceAnalytics.tsx:28 | string `<` is asymmetric and total on distinct strings |
| IsoDates.FixedDigitsOrder | src/pages/owner/OwnerSpaceAnalytics.tsx:27-28 | fixed-width digit strings compare and differ as their numbers |
| IsoDates.DateStringOrder | src/pages/owner/OwnerSpaceAnalytics.tsx:27-28 | for four-digit years the calendar's date strings compare and differ as (year, month, day) |
| CalendarPage.StartOffset | src/pages/owner/OwnerSpaceAnalytics.tsx:19 | the offset is in 0..6 and is the Monday-first column of the month's first weekday |
| CalendarPage.NextMonthOf | src/pages/owner/OwnerSpaceAnalytics.tsx:36 | the next month is `(m + 1) mod 12` |
| CalendarPage.PrevMonthOf | src/pages/owner/OwnerSpaceAnalytics.tsx:34 | the previous month is `(m + 11) mod 12` |
| CalendarPage.CalendarView.constructor | src/pages/owner/OwnerSpaceAnalytics.tsx:6-9 | the calendar opens on today's month and year |
| CalendarPage.CalendarView.DaysInMonth | src/pages/owner/OwnerSpaceAnalytics.tsx:11 | the month length of the shown month, 28 to 31 |
| CalendarPage.CalendarView.FirstDay | src/pages/owner/OwnerSpaceAnalytics.tsx:12 | the weekday of the first of the shown month, in 0..6 |
| CalendarPage.CalendarView.GetDaysArray | src/pages/owner/OwnerSpaceAnalytics.tsx:14-24 | `startOffset` empty cells followed by the days 1 to `daysInMonth` in order |
| CalendarPage.CalendarView.PrevMonth | src/pages/owner/OwnerSpaceAnalytics.tsx:34 | "<" shows the previous month, January wrapping to December; the year is a constant |
| CalendarPage.CalendarView.NextMonth | src/pages/owner/OwnerSpaceAnalytics.tsx:36 | ">" shows the next month, December wrapping to January; the year is a constant |
| CalendarPage.DayColumn | src/pages/owner/OwnerSpaceAnalytics.tsx:19-22 | the cell of each day sits in the Monday-first column of its weekday |
| CalendarPage.NextGridContinues | src/pages/owner/OwnerSpaceAnalytics.tsx:11-22 | within a year, the next month's offset continues right after this month's last day |
| CalendarPage.CoversDateIsActive | src/pages/owner/OwnerSpaceAnalytics.tsx:26-29 | for four-digit dates, the string test on one reservation is the engine's inclusive ordinal test |
| CalendarPage.IsReservedChronological | src/pages/owner/OwnerSpaceAnalytics.tsx:26-29 | a shown day is marked iff its ordinal lies in the inclusive range of some reservation |
| CalendarPage.NavigationWraps | src/pages/owner/OwnerSpaceAnalytics.tsx:34-36 | the two buttons undo each other and wrap between December and January |
| CalendarPage.NextFromDecemberGoesBack | src/pages/owner/OwnerSpaceAnalytics.tsx:9-36 | as written, ">" from December shows a month that started before December |
| CalendarPage.AdvanceMonth | src/pages/owner/OwnerSpaceAnalytics.tsx:36 | with the year carried, the month index `12 * year + month` goes up by exactly one |
| CalendarPage.RetreatMonth | src/pages/owner/OwnerSpaceAnalytics.tsx:34 | with the year carried, the month index goes down by exactly one |
| CalendarPage.CarriedYearIsContiguous | src/pages/owner/OwnerSpaceAnalytics.tsx:34-36 | with the year carried, ">" shows the month starting the day after the shown one ends, "<" the one ending the day before, and "<" undoes ">" |

## Left out

- Network and storage are not modelled: fetch calls, the database queries and `localStorage`. Their answers are parameters. The spaces and reservation rows stand for the database content.
- Rendering, styles, alerts, loading flags and navigation are left out, except the search-result fallback and the redirect flag of the verification page.
- The classifier service (`classify-items.ts`) is not part of this model. Its answer is a `Requirements` parameter whose fields are left out, `null` or integers. Other JSON values in a field (strings, fractions, nested objects) are not modelled.
- The statistics endpoint that feeds the calendar (`get-space-stats.ts`) is not part of this model. Its rows reach the calendar as `Span` values. `OwnerSpaceAnalytics`'s statistics panel is left out.
- The file reader runs asynchronously. Its data URL is a parameter of `FileChange`, so a second change arriving before the first read finishes is not modelled.
- `FileChange` works on a shallow copy of the item list, so the old array's objects are also mutated. The model updates a value instead, so it does not capture that aliasing.
- Parsing of `new Date(string)`, UTC versus local time and daylight-saving shifts are left out. Day counts are exact differences of day ordinals.
- `Pricing.InclusiveDays`: does not model a `Math.ceil` result shifted by a daylight-saving hour, because dates are day ordinals.
- Prices are reals: floating-point rounding and the `toFixed(2)` formatting are not modelled.
- `SearchAvailability.OnRequestPost`: the 500 answer is not modelled. It covers malformed JSON and database errors, which have no counterpart in the model's inputs.
- Quantity inputs that are not integers (NaN, fractions from form fields) are not modelled. Quantities are integers.
- JavaScript compares strings by UTF-16 code unit, while Dafny compares by Unicode scalar. The two agree on the ASCII date strings.
- `IsoDates.DateStringOrder`: stated for years 1000 to 9999 only, because `String(year)` has no fixed width outside that range.
- `CalendarPage.CalendarView.IsReserved` takes a natural day and year. Negative years, which `String(year)` writes with a sign, are not modelled.
- Two bookings that race for the last slot are not modelled. There is no concurrency in the model.
- Reservation status transitions and the other CRUD endpoints are outside the engine and are not modelled.

## Findings

| source | as written | input that shows it | evidently intended | confidence | as-written member | corrected member |
|---|---|---|---|---|---|---|
| src/pages/owner/OwnerSpaceAnalytics.tsx:9-36 | the year is a constant, so ">" from December shows January of the same year and "<" from January shows December of the same year | shown month December 2024, press ">": the grid and reserved days are those of January 2024, which began before December 2024 | carry the year: ">" after December shows January of the next year, "<" before January shows December of the previous year | medium, not executed | CalendarPage.NextFromDecemberGoesBack | CalendarPage.CarriedYearIsContiguous |
