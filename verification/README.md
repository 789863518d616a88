# Room booking and billing engine of a lodging back-end, in Dafny

This project models the core of a lodging back-end that books rooms for
short stays. It covers three parts:

- the **payment calculator**, the listener that bills a rental after it is
  saved: per-day billing, per-hour billing, or an additive extra-hour
  renewal, then a discount floor and a tax;
- the **rental lifecycle**: the defaults written after validation, the
  departure derived for hour bookings, the save gate, the checkout, timeout
  and reservation-expiry checks, and the room bookkeeping on checkout and
  cancellation;
- the **reservation endpoints**: create, the two reservation-only edits,
  confirm, and the date-range listing.

Everything is a pure function or method over immutable records
(`Domain.Rental`, `Domain.Assignment`, `Domain.Setting`):

- dates are day numbers and times are seconds since midnight, because the
  source compares `Y-m-d` and `H:i:s` strings, whose order is the
  chronological one;
- money is an exact `real`; the source's amounts are PHP floats, and their
  rounding is not modelled (see "Left out");
- nullable columns are `Option`s, and PHP's comparison of null with a date
  or time string (null reads as the empty string, below every value) is
  `Domain.Below`.

The clock is passed in as `today` and `now`. The global helpers whose bodies
are not part of this model are passed in as function-valued fields of
`Domain.Externals`: `sumHour`, `addDay` and the setting's
`calculateImpost`. The availability checks of `RentalValidator`
(`isValidDate`, `isValidRoomHour`, `isValidRoomDate`) are passed in the same
way, as fields of `RentalLifecycle.RoomValidator`. An operation that has a
side effect returns the updated record next to its result. Examples are
`IsCheckout`, which returns the flag and the rental it saved, and
`ConfirmReservation`, which returns the stored rental and the rejection.

Modules, one file each:

- `Domain` (`domain.dfy`): records and helpers.
- `RentalLifecycle` (`rental_lifecycle.dfy`): `app/Models/Rental.php`, without room bookkeeping.
- `RentalRooms` (`rental_rooms.dfy`): the room bookkeeping of `app/Models/Rental.php`.
- `Payment` (`payment.dfy`): `app/Listeners/CalculatePayment.php`.
- `Reservations` (`reservations.dfy`): `app/Http/Controllers/ReservationController.php`.

Behaviour of the code worth knowing:

- `isCheckout` ignores `checkout_date`.
- The discount bills 0 for any remainder below 1, including positive
  remainders such as 0.5.
- A second billing run after a renewal recomputes from the dates, so the
  renewal's additive amount is replaced.
- Confirming a reservation does not consult the stay's end, because
  `isCheckout` answers false for any reservation.
- `isTimeout` is false for a departure date in the past.
- The reservation listing has no ordering.
- A room's state lives on the room record, which every pivot row of that
  room shares: putting a room into maintenance or freeing it changes the
  state seen through all of its rows.

## Model

| member | source | states |
|---|---|---|
| RentalLifecycle.AfterValidate | app/Models/Rental.php:98-109 | a pending `renovate_hour` becomes the `extra_hour`; a null state becomes `conciliado` and a set one is kept; nothing else changes |
| RentalLifecycle.AfterValidateIdempotent | app/Models/Rental.php:98-109 | running the post-validation defaults twice is the same as once |
| RentalLifecycle.GetHourFrom | app/Models/Rental.php:221-229 | the window starts at the departure time when an extension is pending, else at the arrival time |
| RentalLifecycle.GetDateFrom | app/Models/Rental.php:244-250 | the window's date is the arrival date when there is no departure date, else the departure date |
| RentalLifecycle.SetDepartureTime | app/Models/Rental.php:231-242 | with an extension the departure is `sumHour(hourFrom, extra)`; otherwise a null departure becomes `sumHour(hourFrom, time_minimum)` and a set one is left alone; afterwards a departure time is always set and nothing else changes |
| RentalLifecycle.SetDepartureDate | app/Models/Rental.php:252-259 | the departure date changes exactly when it was null and the departure time is before the start time (past midnight), and then becomes `addDay(dateFrom)`; a set departure date is never overwritten |
| RentalLifecycle.RenewalStartsAtStayEnd | app/Models/Rental.php:221-250 | once a renewal is recorded as the extension, its window starts at the current departure time, on the date whose passing the checkout check reads as the end of the stay |
| RentalLifecycle.DepartureSettersSettle | app/Models/Rental.php:231-259 | applying either departure setter again from the same start changes nothing more |
| RentalLifecycle.SetOldDeparture | app/Models/Rental.php:261-276 | the recorded old departure is always set: the arrival date when there is no departure date or an hour booking departs after today, else the departure date; the search date becomes today |
| RentalLifecycle.IsValidArrivalDate | app/Models/Rental.php:136-142 | only a reservation is asked whether its arrival date is acceptable |
| RentalLifecycle.IsValidRenovateDate | app/Models/Rental.php:144-150 | valid exactly when no old departure is recorded, or a departure date exists and is strictly after it (a null departure date compares below every date) |
| RentalLifecycle.IsValidTimeRooms | app/Models/Rental.php:152-185 | an hour booking (hour type or pending extension) gets its departure derived, with the time always set, an existing date kept, and a next-day date exactly on a past-midnight rollover; it is then checked by the hour availability query on the derived window; a day booking is checked by the date query and not changed; the message is recorded whatever the answer |
| RentalLifecycle.BeforeSave | app/Models/Rental.php:111-130 | the save is valid iff the arrival check, the renewal check and the room check all pass; a date-check failure records its own message and leaves the rental unchanged with no room message; when both date checks pass the derived rental and the single room message are kept |
| RentalLifecycle.BeforeSaveSkipsRoomsWhenDatesFail | app/Models/Rental.php:125-127 | when a date check fails, the room availability answers cannot affect the outcome, which is a rejection |
| RentalLifecycle.RenewalNeedsLaterDeparture | app/Models/Rental.php:144-150 | after recording the old departure of a day booking, a renewal is accepted exactly when its new departure date is strictly later |
| RentalLifecycle.IsCheckout | app/Models/Rental.php:278-296 | a reservation answers false and is unchanged; otherwise the flag is set once the end date (departure, else arrival) is before today, never reset, and returned; only the flag changes |
| RentalLifecycle.IsCheckoutMonotone | app/Models/Rental.php:278-296 | the checkout flag never goes back to false, stays set on later days, and does not depend on `checkout_date` |
| RentalLifecycle.IsTimeout | app/Models/Rental.php:298-315 | true exactly for a non-reservation with no departure date or one equal to today whose departure time is null or before now; a past departure date is not a timeout |
| RentalLifecycle.HourDerivationSettles | app/Models/Rental.php:152-185 | without an extension, deriving the departure of an already derived booking changes nothing; with one, the departure moves on by the extension again from the derived departure |
| RentalLifecycle.TimeoutMonotone | app/Models/Rental.php:298-315 | a rental late at one time of day is late at every later time the same day, and one late on its departure date has not ended its stay, so the checkout check leaves its flag as it was |
| RentalLifecycle.ReservationExpired | app/Models/Rental.php:317-342 | a reservation whose end is before today is promoted to checked out when reconciled and deleted otherwise; every other rental is kept unchanged and answers its checkout flag; the answer is true exactly when the flag was set or the reservation expired |
| RentalLifecycle.ReservationExpiredSettles | app/Models/Rental.php:317-342 | sweeping again the same day what the sweep kept changes nothing |
| RentalRooms.OpenRooms | app/Models/Rental.php:417-420 | holds exactly the rows whose `check_out` is null |
| RentalRooms.ClosedRooms | app/Models/Rental.php:422-425 | holds exactly the rows whose `check_out` is set |
| RentalRooms.OpenClosedPartition | app/Models/Rental.php:417-425 | open and closed rows together are the room list, as a multiset and by count |
| RentalRooms.ConfirmCheckoutRoom | app/Models/Rental.php:344-351 | the rental's checkout flag is set iff it was set or no row is still open; only the flag changes |
| RentalRooms.SetRoomState | app/Models/Rental.php:363-366 | writing a state to a set of rooms changes every row of those rooms, and only the room state, and leaves the rows of other rooms as they were |
| RentalRooms.StateRoomCheckout | app/Models/Rental.php:353-368 | a room with some row closed on or before today while the room is occupied goes into maintenance, seen through every row of that room, open ones included; rows of other rooms are unchanged; only room states change |
| RentalRooms.StateRoomCheckoutIdempotent | app/Models/Rental.php:353-368 | a second maintenance sweep the same day changes nothing |
| RentalRooms.CancelRooms | app/Models/Rental.php:370-380 | a reservation is unchanged; otherwise every room with a row still open becomes available, seen through all of its rows; rooms with no open row are unchanged; only room states change |
| RentalRooms.CancelRoomsIdempotent | app/Models/Rental.php:370-380 | cancelling twice is the same as cancelling once |
| RentalRooms.RoomSweepsKeepSharedStates | app/Models/Rental.php:353-380 | if every row of a room shows the same state before a maintenance sweep or a cancellation, it does after it too |
| RentalRooms.WithoutRooms | app/Models/Rental.php:495-497 | every row of a detached room goes, and every row of any other room stays exactly as many times as it was there |
| RentalRooms.WithoutRoomsAppend | app/Models/Rental.php:495-497 | detaching from two lists joined is detaching from each, so the remaining rows keep their order |
| RentalRooms.WithoutOtherRooms | app/Models/Rental.php:495-497 | detaching rooms that no row belongs to leaves the list as it was |
| RentalRooms.DeleteCheckRoomsDate | app/Models/Rental.php:468-478 | a row stays exactly when its room has no row checking in on or after the date (a null check-in never matches), and then as many times as it was there; with no such row the rental is unchanged |
| Payment.DayStart | app/Listeners/CalculatePayment.php:68-72 | a room's billing starts at its own check-in, else at the arrival date |
| Payment.DayEnd | app/Listeners/CalculatePayment.php:58-80 | a room's billing ends at its own check-out, else at the rental's checkout date, else at its departure date |
| Payment.RoomDays | app/Listeners/CalculatePayment.php:74-80 | the billed days are the unsigned whole-day distance between start and end |
| Payment.CalculateAmountDay | app/Listeners/CalculatePayment.php:57-89 | the loop's amount is the sum over rooms of (increment + day price) times the room's days |
| Payment.DayTotalAppend | app/Listeners/CalculatePayment.php:64-88 | the day total of two room lists joined is the sum of their totals (so an empty list bills 0) |
| Payment.DayTotalOrderFree | app/Listeners/CalculatePayment.php:66-86 | any two room lists holding the same rows the same number of times (a permutation) have the same day total |
| Payment.DayTotalWithout | app/Listeners/CalculatePayment.php:66-86 | taking one row out of a room list lowers the day total by exactly that row's charge |
| Payment.DayTotalNonNegative | app/Listeners/CalculatePayment.php:82-85 | with non-negative prices and increments the day total is not negative |
| Payment.ElapsedSeconds | app/Listeners/CalculatePayment.php:97-110 | the time billed is the unsigned distance from the arrival instant to the room's end instant (its own time-out, else the departure time, on the departure date, else the arrival date) |
| Payment.BilledHours | app/Listeners/CalculatePayment.php:110-111 | rounding the minutes to hundredths and then dividing by 60 and rounding up gives the least number of whole hours covering the elapsed time |
| Payment.CalculateAmountTime | app/Listeners/CalculatePayment.php:91-120 | the loop's amount is the sum over rooms of billed hours times the hour price plus the room's increment |
| Payment.HourTotalAppend | app/Listeners/CalculatePayment.php:92-119 | the hour total of two room lists joined is the sum of their totals |
| Payment.HourTotalOrderFree | app/Listeners/CalculatePayment.php:92-118 | any permutation of the room rows has the same hour total |
| Payment.HourTotalWithout | app/Listeners/CalculatePayment.php:92-118 | taking one row out of a room list lowers the hour total by exactly that row's charge |
| Payment.HourTotalNonNegative | app/Listeners/CalculatePayment.php:113-116 | with non-negative prices and increments the hour total is not negative |
| Payment.CalculateAmountDayTimeExtra | app/Listeners/CalculatePayment.php:122-130 | a renewal adds the extension's hours times the hour price to the amount already owed, and clears the extension |
| Payment.CalculateDiscount | app/Listeners/CalculatePayment.php:132-140 | the result is never negative, is 0 or at least 1, and is the difference whenever that is at least 1 |
| Payment.DiscountVersusMax | app/Listeners/CalculatePayment.php:132-140 | the floor equals `max(0, amount - discount)` exactly when the difference is not strictly between 0 and 1 |
| Payment.Handle | app/Listeners/CalculatePayment.php:28-55 | a day rental with an extension is billed by the renewal, one without by the day total, and an hour rental by the hour total (its extension ignored); the discount is applied to that, even to a renewal's already discounted amount; the tax is taken on the discounted amount, the total is amount plus tax, a day rental's extension is consumed so the next run takes the day branch, and nothing else changes |
| Payment.DayChargeExample | app/Listeners/CalculatePayment.php:82-83 | a two-day stay in a room with increment 200 at day price 3400 bills 7200 |
| Payment.HourChargeExample | app/Listeners/CalculatePayment.php:109-114 | 125 minutes bill 3 hours, 1800 at hour price 600, plus the increment |
| Payment.DiscountExamples | app/Listeners/CalculatePayment.php:132-140 | 100 less 150 bills 0, 100 less 30 bills 70, 100.5 less 100 bills 0 |
| Reservations.AddReservation | app/Http/Controllers/ReservationController.php:22-26 | the new rental is a reservation for the given client whatever the request said; nothing else of the request changes |
| Reservations.UpdateReservationForHour | app/Http/Controllers/ReservationController.php:39-51 | rejected exactly for a non-reservation; otherwise the rental becomes an hour booking with no departure date, takes the request's arrival, departure time and rooms, stays a reservation, and nothing else changes |
| Reservations.UpdateReservationForDate | app/Http/Controllers/ReservationController.php:63-75 | rejected exactly for a non-reservation; otherwise the rental becomes a day booking leaving at 12:00:00, takes the request's arrival, departure date and rooms, stays a reservation, and nothing else changes |
| Reservations.UpdatesRepeatable | app/Http/Controllers/ReservationController.php:42-51 | an edited reservation can be edited again, and repeating the same edit changes nothing |
| Reservations.NewReservationEditable | app/Http/Controllers/ReservationController.php:22-75 | a reservation just created is accepted by both the hour edit and the day edit |
| Reservations.ConfirmReservation | app/Http/Controllers/ReservationController.php:129-151 | succeeds iff the rental is a reservation arriving on or before today, then becomes reconciled and no longer a reservation with nothing else changed; a non-reservation is refused as checked out (and saved with the flag) when its stay has ended or the flag is set, else as already confirmed; an early reservation is refused as too early |
| Reservations.ConfirmNotRepeatable | app/Http/Controllers/ReservationController.php:137-146 | a confirmed reservation is refused on any later confirmation |
| Reservations.GetReservation | app/Http/Controllers/ReservationController.php:153-159 | lists exactly the reservations arriving between the two dates, both ends included |
| Reservations.GetReservationAppend | app/Http/Controllers/ReservationController.php:153-156 | listing a table split in two lists each part in table order |

## Left out

- `RentalValidator`'s availability and date checks (room overlap, day
  versus hour conflicts): their source is not part of this model, so they
  are uninterpreted predicates passed in.
- `sumHour`, `addDay`, `createHour`, `getSetting`, `currentDate` and
  `currentHour` are not part of this model: the first two are passed in, the
  clock and the settings are parameters, and `createHour('12:00:00')` is
  taken to be the time 12:00:00.
- Payment.Handle: the tax is `Setting::calculateImpost`, which is not part
  of this model, so the tax amount itself (such as 12% of 7200 being 864) is
  not stated.
- Payment.CalculateDiscount: money is an exact real, while the source's
  amounts are PHP floats; float rounding is not modelled. For example
  `1.13 - 0.13` is `0.9999999999999999` in PHP and would bill 0, where the
  model bills 1. Rounding error in the sums of the day and hour loops is
  not modelled either.
- Arrival date and time are always set in the model. The rules require them
  only for reservations, and `addDateTime` fills both only when the arrival
  time is null, so a walk-in sent with a time but no date would keep a null
  arrival date, which `isCheckout` and the window start would compare as
  below every date. That case is not modelled.
- Payment.BilledHours: float representation error of PHP's `round` and
  `ceil` is not modelled; elapsed time is exact whole seconds, and
  `strtotime` is date times 86400 plus the time, with no time zone or DST.
- Payment.CalculateAmountDay: a rental with neither a checkout nor a
  departure date, where `Carbon::parse(null)` would read the clock, is
  excluded; the rule on `departure_date` requires one for day rentals.
- Reservations.UpdateReservationForHour: models the guard, the resets and
  the applied request; the save that follows is modelled by
  `RentalLifecycle.AfterValidate` and `RentalLifecycle.BeforeSave`, and is
  not composed in. `registerPayment` (its source is not part of this model)
  and the billing dispatch are left out too. Missing request keys are taken
  as present for the arrival fields, which the validation rules require.
- Reservations.UpdateReservationForDate: same as the hour edit.
- Reservations.AddReservation: only the forced reservation flag and the
  client are modelled; the client lookup, save and payment registration are
  framework and persistence.
- Reservations.GetReservation: the result keeps table order, since the query
  has no ordering.
- `detachSameCheckinCheckout`: it iterates an unexecuted query and uses an
  undefined variable, so it has no well-defined behaviour to model.
- `changeCheckoutDate`: it depends on `syncDataCheckout`, which is not part
  of this model.
- `getAvailableDateRoom` and `getAvailableHourRoom`: they delegate to
  `RoomTask`, which is not part of this model.
- `rooms_validation`: the copy of `room_ids` made in `afterValidate` only
  survives attribute purging, so the model uses `roomIds` directly.
- Persistence, events and framework machinery (`forceSave`, `delete`,
  `sync`/`detach` against the database, Ardent rule strings, purge filters,
  `moveDispatch`) are not modelled. Deletion is the `Deleted` outcome, and a
  room's state change is a new value in every row of that room in the
  rental's room list. Rows of the same room in other rentals, which share
  the room record too, are outside the model.
- Concurrency: the check-then-attach atomicity and any concurrent sweep are
  out of scope; every operation is one sequential step.
- The user, client and type controllers and the seed factory are CRUD and
  test data. The factory's prices (day 3400, hour 600, increment 200) appear
  only in the worked examples.
