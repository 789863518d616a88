/** The rental model's own decisions: the defaults written after validation,
    the departure derived for hour bookings, the save gate, and the
    checkout, timeout and expiry checks. Each operation is a pure function
    from the rental (and the clock) to its result and the updated rental. */
module RentalLifecycle {
  import opened Domain

  /** Availability checks whose bodies are not part of this model. */
  datatype HourQuery = HourQuery(
    roomIds: seq<int>,
    hourFrom: Option<Time>,
    departureTime: Option<Time>,
    dateFrom: Date,
    departureDate: Option<Date>,
    rentalId: int)

  datatype DateQuery = DateQuery(
    roomIds: seq<int>,
    arrivalDate: Date,
    departureDate: Option<Date>,
    hourFrom: Option<Time>,
    searchDate: Option<Date>,
    rentalId: int)

  datatype RoomValidator = RoomValidator(
    isValidDate: Date -> bool,
    isValidRoomHour: HourQuery -> bool,
    isValidRoomDate: DateQuery -> bool)

  /** The messages the save gate records, one per field check. */
  datatype SaveError =
    | ArrivalDatePassed
    | RenovateNotAfterDeparture
    | RoomsBusyForHours
    | RoomsBusyForDates

  datatype RoomsCheck = RoomsCheck(valid: bool, rental: Rental, error: SaveError)

  datatype SaveCheck = SaveCheck(valid: bool, rental: Rental, errors: seq<SaveError>)

  datatype CheckoutQuery = CheckoutQuery(result: bool, rental: Rental)

  /** What the expiry sweep leaves behind: the rental with the value the
      call returns, or nothing because the rental was deleted. */
  datatype Expiry = Kept(rental: Rental, checkout: bool) | Deleted {
    function Returned(): bool
    {
      match this
      case Kept(_, c) => c
      case Deleted => true
    }
  }

  // ---------------------------------------------------------------------
  // Defaults after validation

  function AfterValidate(r: Rental): (r': Rental)
    ensures r'.state.Some?
    ensures r.state.Some? ==> r'.state == r.state
    ensures r.state.None? ==> r'.state == Some(Conciliado)
    ensures r.renovateHour.Some? ==> r'.extraHour == r.renovateHour
    ensures r.renovateHour.None? ==> r'.extraHour == r.extraHour
    ensures r' == r.(state := r'.state, extraHour := r'.extraHour)
  {
    var renewed := if r.renovateHour.Some? then r.(extraHour := r.renovateHour) else r;
    if renewed.state == None then renewed.(state := Some(Conciliado)) else renewed
  }

  lemma AfterValidateIdempotent(r: Rental)
    ensures AfterValidate(AfterValidate(r)) == AfterValidate(r)
  {
  }

  // ---------------------------------------------------------------------
  // Departure derivation for hour bookings

  /** A booking whose window is hour based: an hour rental, or any rental
      with a pending extension. */
  predicate HourBooking(r: Rental)
  {
    r.extraHour.Some? || r.kind == Hours
  }

  /** The time the booked window starts from. */
  function GetHourFrom(r: Rental): (h: Option<Time>)
    ensures r.extraHour.Some? ==> h == r.departureTime
    ensures r.extraHour.None? ==> h == Some(r.arrivalTime)
  {
    if r.extraHour.Some? then r.departureTime else Some(r.arrivalTime)
  }

  /** The date the booked window starts from, which is also the date the
      stay ends on: the departure date, or the arrival date without one. */
  function GetDateFrom(r: Rental): (d: Date)
    ensures r.departureDate.None? ==> d == r.arrivalDate
    ensures r.departureDate.Some? ==> d == r.departureDate.value
  {
    match r.departureDate
    case None => r.arrivalDate
    case Some(d) => d
  }

  function SetDepartureTime(r: Rental, hourFrom: Option<Time>, s: Setting, x: Externals): (r': Rental)
    ensures r.extraHour.Some? ==> r'.departureTime == Some(x.sumHour(hourFrom, r.extraHour.value))
    ensures r.extraHour.None? && r.departureTime.None? ==>
              r'.departureTime == Some(x.sumHour(hourFrom, s.timeMinimum))
    ensures r.extraHour.None? && r.departureTime.Some? ==> r' == r
    ensures r'.departureTime.Some?
    ensures r' == r.(departureTime := r'.departureTime)
  {
    match r.extraHour
    case Some(extra) => r.(departureTime := Some(x.sumHour(hourFrom, extra)))
    case None =>
      if r.departureTime == None then r.(departureTime := Some(x.sumHour(hourFrom, s.timeMinimum)))
      else r
  }

  function SetDepartureDate(r: Rental, dateFrom: Date, hourFrom: Option<Time>, x: Externals): (r': Rental)
    ensures r.departureDate.Some? ==> r' == r
    ensures r'.departureDate != r.departureDate <==> r.departureDate.None? && Below(r.departureTime, hourFrom)
    ensures r'.departureDate != r.departureDate ==> r'.departureDate == Some(x.addDay(dateFrom))
    ensures r' == r.(departureDate := r'.departureDate)
  {
    if Below(r.departureTime, hourFrom) && r.departureDate == None then
      r.(departureDate := Some(x.addDay(dateFrom)))
    else
      r
  }

  /** A renewal's window starts where the current stay ends: at the
      departure time, on the stay's last date. */
  lemma RenewalStartsAtStayEnd(r: Rental, today: Date)
    requires r.renovateHour.Some?
    ensures GetHourFrom(AfterValidate(r)) == r.departureTime
    ensures StayEnded(r, today) <==> GetDateFrom(AfterValidate(r)) < today
  {
  }

  /** Each departure setter settles: applied again from the same start it
      changes nothing more. */
  lemma DepartureSettersSettle(r: Rental, dateFrom: Date, hourFrom: Option<Time>, s: Setting, x: Externals)
    ensures var t := SetDepartureTime(r, hourFrom, s, x);
            SetDepartureTime(t, hourFrom, s, x) == t
    ensures var d := SetDepartureDate(r, dateFrom, hourFrom, x);
            SetDepartureDate(d, dateFrom, hourFrom, x) == d
  {
  }

  /** Records the departure a renewal must move past, and the date the
      availability search runs from. */
  function SetOldDeparture(r: Rental, oldType: RentalType, today: Date): (r': Rental)
    ensures r'.searchDate == Some(today)
    ensures r'.oldDeparture.Some?
    ensures r.departureDate.None? ==> r'.oldDeparture == Some(r.arrivalDate)
    ensures r.departureDate.Some? && oldType == Hours && r.departureDate.value > today ==>
              r'.oldDeparture == Some(r.arrivalDate)
    ensures r.departureDate.Some? && (oldType == Days || r.departureDate.value <= today) ==>
              r'.oldDeparture == r.departureDate
    ensures r' == r.(oldDeparture := r'.oldDeparture, searchDate := r'.searchDate)
  {
    // `||` binds looser than `&&`: null departure, or an hour booking ending later.
    if r.departureDate == None
       || (oldType == Hours && r.departureDate != None && r.departureDate.value > today)
    then r.(oldDeparture := Some(r.arrivalDate), searchDate := Some(today))
    else r.(oldDeparture := r.departureDate, searchDate := Some(today))
  }

  // ---------------------------------------------------------------------
  // The save gate

  function IsValidArrivalDate(r: Rental, v: RoomValidator): (ok: bool)
    ensures ok <==> !r.reservation || v.isValidDate(r.arrivalDate)
  {
    if r.reservation then v.isValidDate(r.arrivalDate) else true
  }

  /** A renewal must end strictly after the departure it renews. */
  function IsValidRenovateDate(r: Rental): (ok: bool)
    ensures ok <==> r.oldDeparture.None?
                    || (r.departureDate.Some? && r.oldDeparture.value < r.departureDate.value)
  {
    !(r.oldDeparture != None && !Below(r.oldDeparture, r.departureDate))
  }

  /** Derives the departure of an hour booking and asks the matching
      availability check. The message is recorded before the check runs. */
  function IsValidTimeRooms(r: Rental, v: RoomValidator, s: Setting, x: Externals): (c: RoomsCheck)
    ensures HourBooking(r) ==> c.error == RoomsBusyForHours
    ensures HourBooking(r) ==>
              c.valid == v.isValidRoomHour(HourQuery(r.roomIds, GetHourFrom(r), c.rental.departureTime,
                                                     GetDateFrom(r), c.rental.departureDate, r.id))
    ensures HourBooking(r) ==> c.rental.departureTime.Some?
    ensures HourBooking(r) && r.extraHour.Some? ==>
              c.rental.departureTime == Some(x.sumHour(r.departureTime, r.extraHour.value))
    ensures HourBooking(r) && r.extraHour.None? && r.departureTime.None? ==>
              c.rental.departureTime == Some(x.sumHour(Some(r.arrivalTime), s.timeMinimum))
    ensures r.departureTime.Some? && r.extraHour.None? ==> c.rental.departureTime == r.departureTime
    ensures r.departureDate.Some? ==> c.rental.departureDate == r.departureDate
    ensures HourBooking(r) && r.departureDate.None? ==>
              (c.rental.departureDate.Some? <==> Below(c.rental.departureTime, GetHourFrom(r)))
    ensures r.departureDate.None? && c.rental.departureDate.Some? ==>
              c.rental.departureDate == Some(x.addDay(r.arrivalDate))
    ensures !HourBooking(r) ==> c.error == RoomsBusyForDates && c.rental == r
    ensures !HourBooking(r) ==>
              c.valid == v.isValidRoomDate(DateQuery(r.roomIds, r.arrivalDate, r.departureDate,
                                                     GetHourFrom(r), r.searchDate, r.id))
    ensures c.rental == r.(departureTime := c.rental.departureTime, departureDate := c.rental.departureDate)
  {
    var hourFrom := GetHourFrom(r);
    if HourBooking(r) then
      var dateFrom := GetDateFrom(r);
      var timed := SetDepartureTime(r, hourFrom, s, x);
      var dated := SetDepartureDate(timed, dateFrom, hourFrom, x);
      var ok := v.isValidRoomHour(HourQuery(r.roomIds, hourFrom, dated.departureTime,
                                            dateFrom, dated.departureDate, r.id));
      RoomsCheck(ok, dated, RoomsBusyForHours)
    else
      var ok := v.isValidRoomDate(DateQuery(r.roomIds, r.arrivalDate, r.departureDate,
                                            hourFrom, r.searchDate, r.id));
      RoomsCheck(ok, r, RoomsBusyForDates)
  }

  function BeforeSave(r: Rental, v: RoomValidator, s: Setting, x: Externals): (c: SaveCheck)
    ensures c.valid <==> IsValidArrivalDate(r, v) && IsValidRenovateDate(r)
                         && IsValidTimeRooms(r, v, s, x).valid
    ensures ArrivalDatePassed in c.errors <==> !IsValidArrivalDate(r, v)
    ensures RenovateNotAfterDeparture in c.errors <==> !IsValidRenovateDate(r)
    ensures !(IsValidArrivalDate(r, v) && IsValidRenovateDate(r)) ==>
              c.rental == r && RoomsBusyForHours !in c.errors && RoomsBusyForDates !in c.errors
    ensures IsValidArrivalDate(r, v) && IsValidRenovateDate(r) ==>
              c.rental == IsValidTimeRooms(r, v, s, x).rental
              && c.errors == [IsValidTimeRooms(r, v, s, x).error]
  {
    var arrivalOk := IsValidArrivalDate(r, v);
    var renovateOk := IsValidRenovateDate(r);
    var errors := (if arrivalOk then [] else [ArrivalDatePassed])
                  + (if renovateOk then [] else [RenovateNotAfterDeparture]);
    if arrivalOk && renovateOk then
      var rooms := IsValidTimeRooms(r, v, s, x);
      SaveCheck(rooms.valid, rooms.rental, errors + [rooms.error])
    else
      SaveCheck(false, r, errors)
  }

  /** When a date check fails the room availability check is never asked:
      two validators that agree on the date check give the same verdict. */
  lemma BeforeSaveSkipsRoomsWhenDatesFail(r: Rental, v1: RoomValidator, v2: RoomValidator, s: Setting, x: Externals)
    requires v1.isValidDate(r.arrivalDate) == v2.isValidDate(r.arrivalDate)
    requires !(IsValidArrivalDate(r, v1) && IsValidRenovateDate(r))
    ensures BeforeSave(r, v1, s, x) == BeforeSave(r, v2, s, x)
    ensures !BeforeSave(r, v1, s, x).valid
  {
  }

  /** A renewal of a day booking, measured against the departure recorded
      by `SetOldDeparture`, is accepted exactly when the new departure date
      is later than the old one. */
  lemma RenewalNeedsLaterDeparture(r: Rental, today: Date, newDeparture: Option<Date>)
    requires r.departureDate.Some?
    ensures IsValidRenovateDate(SetOldDeparture(r, Days, today).(departureDate := newDeparture))
            <==> newDeparture.Some? && newDeparture.value > r.departureDate.value
  {
  }

  // ---------------------------------------------------------------------
  // Checkout, timeout and expiry

  /** True when the stay's end date is strictly before today. */
  predicate StayEnded(r: Rental, today: Date)
  {
    GetDateFrom(r) < today
  }

  function IsCheckout(r: Rental, today: Date): (q: CheckoutQuery)
    ensures r.reservation ==> !q.result && q.rental == r
    ensures !r.reservation ==> q.result == q.rental.checkout
    ensures q.rental.checkout <==> r.checkout || (!r.reservation && StayEnded(r, today))
    ensures q.rental == r.(checkout := q.rental.checkout)
  {
    if r.reservation then
      CheckoutQuery(false, r)
    else
      var passed := (r.departureDate == None && r.arrivalDate < today)
                    || (r.departureDate != None && r.departureDate.value < today);
      var r' := if passed then r.(checkout := true) else r;
      CheckoutQuery(r'.checkout, r')
  }

  /** The check never resets the flag and never reads `checkout_date`. */
  lemma IsCheckoutMonotone(r: Rental, today: Date, later: Date, closed: Option<Date>)
    requires today <= later
    ensures r.checkout ==> IsCheckout(r, today).rental.checkout
    ensures IsCheckout(r, today).rental.checkout ==> IsCheckout(r, later).rental.checkout
    ensures IsCheckout(r.(checkoutDate := closed), today).result == IsCheckout(r, today).result
  {
  }

  function IsTimeout(r: Rental, today: Date, now: Time): (late: bool)
    ensures late <==> !r.reservation
                      && (r.departureDate.None? || r.departureDate == Some(today))
                      && (r.departureTime.None? || r.departureTime.value < now)
  {
    if !r.reservation then
      (r.departureDate == None && Below(r.departureTime, Some(now)))
      || (r.departureDate == Some(today) && Below(r.departureTime, Some(now)))
    else
      false
  }

  /** Without a pending extension, deriving the departure of an already
      derived booking changes nothing; with one, the departure moves on by
      the extension again. */
  lemma HourDerivationSettles(r: Rental, v: RoomValidator, s: Setting, x: Externals)
    ensures var once := IsValidTimeRooms(r, v, s, x).rental;
            r.extraHour.None? ==> IsValidTimeRooms(once, v, s, x).rental == once
    ensures var once := IsValidTimeRooms(r, v, s, x).rental;
            r.extraHour.Some? ==>
              IsValidTimeRooms(once, v, s, x).rental.departureTime
                == Some(x.sumHour(once.departureTime, r.extraHour.value))
  {
  }

  /** Lateness only grows as the day goes on, and a rental timed out on its
      departure date has not yet ended its stay. */
  lemma TimeoutMonotone(r: Rental, today: Date, now: Time, later: Time)
    requires now <= later
    ensures IsTimeout(r, today, now) ==> IsTimeout(r, today, later)
    ensures IsTimeout(r, today, now) && r.departureDate.Some? ==>
              !StayEnded(r, today) && IsCheckout(r, today).result == r.checkout
  {
  }

  function ReservationExpired(r: Rental, today: Date): (e: Expiry)
    ensures !(r.reservation && StayEnded(r, today)) ==> e == Kept(r, r.checkout)
    ensures r.reservation && StayEnded(r, today) && r.state == Some(Conciliado) ==>
              e == Kept(r.(reservation := false, checkout := true), true)
    ensures r.reservation && StayEnded(r, today) && r.state != Some(Conciliado) ==> e == Deleted
    ensures e.Returned() <==> r.checkout || (r.reservation && StayEnded(r, today))
  {
    var due := (r.reservation && r.departureDate != None && r.departureDate.value < today)
               || (r.reservation && r.departureDate == None && r.arrivalDate < today);
    if due then
      if r.state == Some(Conciliado) then
        var promoted := r.(reservation := false, checkout := true);
        Kept(promoted, promoted.checkout)
      else
        Deleted
    else
      Kept(r, r.checkout)
  }

  /** The sweep settles a rental: running it again the same day on what it
      kept changes nothing more. */
  lemma ReservationExpiredSettles(r: Rental, today: Date)
    requires ReservationExpired(r, today).Kept?
    ensures var k := ReservationExpired(r, today).rental;
            ReservationExpired(k, today) == Kept(k, k.checkout)
  {
  }
}
