/** Plain records of the lodging back-end's booking and billing core.

    Dates are day numbers and times are seconds since midnight: the source
    compares `Y-m-d` and `H:i:s` strings, whose lexicographic order is the
    chronological one, so integers keep every comparison. Money is an exact
    real; PHP's floating-point rounding is not modelled. Nullable columns
    are `Option`s. */
module Domain {

  datatype Option<+T> = None | Some(value: T)

  datatype Result<+T, +E> = Success(value: T) | Failure(error: E)

  /** A calendar date as a day number. */
  type Date = int

  /** A time of day as seconds since midnight. */
  type Time = int

  type Money = real

  const SecondsPerDay: int := 86400

  /** The departure time the day-based reservation update writes (`12:00:00`). */
  const Noon: Time := 12 * 3600

  /** A duration written `HH:MM:SS`, as `extra_hour`, `renovate_hour` and
      `time_minimum` are. */
  datatype Duration = Duration(hours: nat, minutes: nat, seconds: nat)

  datatype RentalType = Days | Hours

  /** Payment reconciliation status of a rental. */
  datatype PayState = Conciliado | Pendiente

  datatype RoomState = Disponible | Ocupada | Mantenimiento

  /** A physical room; `increment` is its surcharge over the base rates. */
  datatype Room = Room(id: int, state: RoomState, increment: Money)

  /** One row of the rental/room pivot, together with its room. A row whose
      `checkOut` is null is still occupying the room. */
  datatype Assignment = Assignment(
    room: Room,
    checkIn: Option<Date>,
    checkOut: Option<Date>,
    checkTimein: Option<Time>,
    checkTimeout: Option<Time>,
    priceBase: Money)

  /** A booking of one or more rooms. `roomIds` is the requested room list
      (the `room_ids` input), `rooms` the pivot rows already attached.
      `renovateHour`, `extraHour`, `oldDeparture` and `searchDate` are the
      transient attributes the model object carries during one request. */
  datatype Rental = Rental(
    id: int,
    clientId: int,
    kind: RentalType,
    arrivalDate: Date,
    arrivalTime: Time,
    departureDate: Option<Date>,
    departureTime: Option<Time>,
    checkoutDate: Option<Date>,
    reservation: bool,
    checkout: bool,
    state: Option<PayState>,
    amount: Money,
    amountImpost: Money,
    amountTotal: Money,
    discount: Money,
    renovateHour: Option<Duration>,
    extraHour: Option<Duration>,
    oldDeparture: Option<Date>,
    searchDate: Option<Date>,
    roomIds: seq<int>,
    rooms: seq<Assignment>)

  /** The tenant settings the core reads. */
  datatype Setting = Setting(priceDay: Money, priceHour: Money, timeMinimum: Duration)

  /** Global helpers whose bodies are not part of this model, passed in:
      `sumHour` adds a duration to a (nullable) time of day, `addDay` gives
      the next date, and `calculateImpost` is the setting's tax rule. */
  datatype Externals = Externals(
    sumHour: (Option<Time>, Duration) -> Time,
    addDay: Date -> Date,
    calculateImpost: Money -> Money)

  /** PHP's `a < b` on two nullable date or time strings: null compares as
      the empty string, which is below every date and every time. */
  predicate Below(a: Option<int>, b: Option<int>)
  {
    match (a, b)
    case (None, Some(_)) => true
    case (Some(x), Some(y)) => x < y
    case (_, None) => false
  }
}
