/** The reservation endpoints: creating, editing, confirming and listing
    reservations. Each endpoint is a pure function of the stored rental,
    the request and the clock. */
module Reservations {
  import opened Domain
  import opened RentalLifecycle

  // ---------------------------------------------------------------------
  // Creating and editing

  /** A new reservation is always flagged as one, whatever the request said. */
  function AddReservation(input: Rental, clientId: int): (r: Rental)
    ensures r.reservation
    ensures r.clientId == clientId
    ensures r.(reservation := input.reservation, clientId := input.clientId) == input
  {
    input.(clientId := clientId, reservation := true)
  }

  datatype EditError = NotEditable

  /** The fields the hour-based edit reads from the request. */
  datatype HourInput = HourInput(
    arrivalDate: Date, arrivalTime: Time, departureTime: Option<Time>, roomIds: seq<int>)

  /** The fields the day-based edit reads from the request. */
  datatype DateInput = DateInput(
    arrivalDate: Date, arrivalTime: Time, departureDate: Option<Date>, roomIds: seq<int>)

  /** Turns a reservation into an hour booking and applies the request. Only
      a reservation may be edited. */
  function UpdateReservationForHour(r: Rental, input: HourInput): (res: Result<Rental, EditError>)
    ensures !r.reservation <==> res == Failure(NotEditable)
    ensures res.Success? ==>
              && res.value.kind == Hours
              && res.value.departureDate.None?
              && res.value.reservation
              && res.value.arrivalDate == input.arrivalDate
              && res.value.arrivalTime == input.arrivalTime
              && res.value.departureTime == input.departureTime
              && res.value.roomIds == input.roomIds
              && res.value == r.(kind := Hours, departureDate := None, arrivalDate := input.arrivalDate,
                                 arrivalTime := input.arrivalTime, departureTime := res.value.departureTime,
                                 roomIds := input.roomIds)
  {
    if !r.reservation then
      Failure(NotEditable)
    else
      var reset := r.(kind := Hours, departureDate := None);
      Success(reset.(arrivalDate := input.arrivalDate, arrivalTime := input.arrivalTime,
                     departureTime := input.departureTime, roomIds := input.roomIds))
  }

  /** Turns a reservation into a day booking leaving at noon and applies the
      request. Only a reservation may be edited. */
  function UpdateReservationForDate(r: Rental, input: DateInput): (res: Result<Rental, EditError>)
    ensures !r.reservation <==> res == Failure(NotEditable)
    ensures res.Success? ==>
              && res.value.kind == Days
              && res.value.departureTime == Some(Noon)
              && res.value.reservation
              && res.value.arrivalDate == input.arrivalDate
              && res.value.arrivalTime == input.arrivalTime
              && res.value.departureDate == input.departureDate
              && res.value.roomIds == input.roomIds
              && res.value == r.(kind := Days, departureTime := Some(Noon), arrivalDate := input.arrivalDate,
                                 arrivalTime := input.arrivalTime, departureDate := res.value.departureDate,
                                 roomIds := input.roomIds)
  {
    if !r.reservation then
      Failure(NotEditable)
    else
      var reset := r.(kind := Days, departureTime := Some(Noon));
      Success(reset.(arrivalDate := input.arrivalDate, arrivalTime := input.arrivalTime,
                     departureDate := input.departureDate, roomIds := input.roomIds))
  }

  /** An edited reservation stays editable, and repeating an edit with the
      same request changes nothing further. */
  lemma UpdatesRepeatable(r: Rental, hours: HourInput, days: DateInput)
    requires r.reservation
    ensures var h := UpdateReservationForHour(r, hours).value;
            UpdateReservationForHour(h, hours) == Success(h)
    ensures var d := UpdateReservationForDate(r, days).value;
            UpdateReservationForDate(d, days) == Success(d)
  {
  }

  /** A reservation just created can be edited either way. */
  lemma NewReservationEditable(input: Rental, clientId: int, hours: HourInput, days: DateInput)
    ensures UpdateReservationForHour(AddReservation(input, clientId), hours).Success?
    ensures UpdateReservationForDate(AddReservation(input, clientId), days).Success?
  {
  }

  // ---------------------------------------------------------------------
  // Confirming

  datatype ConfirmError = AlreadyCheckedOut | AlreadyConfirmed | NotYetArrival

  /** The rental as stored after the request, and the rejection if any. The
      checkout check runs first and may itself record the checkout, so a
      rejected request can still change the stored rental. */
  datatype ConfirmReply = ConfirmReply(stored: Rental, error: Option<ConfirmError>)

  function ConfirmReservation(r: Rental, today: Date): (reply: ConfirmReply)
    ensures reply.error.None? <==> r.reservation && r.arrivalDate <= today
    ensures reply.error.None? ==> reply.stored == r.(state := Some(Conciliado), reservation := false)
    ensures !r.reservation && (r.checkout || StayEnded(r, today)) ==>
              reply.error == Some(AlreadyCheckedOut) && reply.stored == r.(checkout := true)
    ensures !r.reservation && !(r.checkout || StayEnded(r, today)) ==>
              reply.error == Some(AlreadyConfirmed) && reply.stored == r
    ensures r.reservation && r.arrivalDate > today ==>
              reply.error == Some(NotYetArrival) && reply.stored == r
  {
    var q := IsCheckout(r, today);
    var rental := q.rental;
    if q.result then
      ConfirmReply(rental, Some(AlreadyCheckedOut))
    else if !rental.reservation then
      ConfirmReply(rental, Some(AlreadyConfirmed))
    else if rental.arrivalDate > today then
      ConfirmReply(rental, Some(NotYetArrival))
    else
      ConfirmReply(rental.(state := Some(Conciliado), reservation := false), None)
  }

  /** A confirmed reservation cannot be confirmed again, on any day. */
  lemma ConfirmNotRepeatable(r: Rental, today: Date, later: Date)
    requires ConfirmReservation(r, today).error.None?
    ensures ConfirmReservation(ConfirmReservation(r, today).stored, later).error.Some?
  {
  }

  // ---------------------------------------------------------------------
  // Listing

  /** A reservation arriving within the inclusive range. */
  predicate InRange(r: Rental, start: Date, end: Date)
  {
    r.reservation && start <= r.arrivalDate <= end
  }

  /** The reservations arriving between two dates, both ends included, in
      the order the table yields them. */
  function GetReservation(all: seq<Rental>, start: Date, end: Date): (found: seq<Rental>)
    ensures forall x :: x in found <==> x in all && x.reservation && start <= x.arrivalDate <= end
    ensures |found| <= |all|
  {
    if |all| == 0 then []
    else if InRange(all[0], start, end) then [all[0]] + GetReservation(all[1..], start, end)
    else GetReservation(all[1..], start, end)
  }

  /** Listing a table split in two lists each part and keeps their order. */
  lemma {:induction false} GetReservationAppend(xs: seq<Rental>, ys: seq<Rental>, start: Date, end: Date)
    ensures GetReservation(xs + ys, start, end) == GetReservation(xs, start, end) + GetReservation(ys, start, end)
  {
    if |xs| > 0 {
      assert (xs + ys)[1..] == xs[1..] + ys;
      GetReservationAppend(xs[1..], ys, start, end);
    } else {
      assert xs + ys == ys;
    }
  }
}
