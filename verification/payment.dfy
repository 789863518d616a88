/** The billing listener: the amount owed for a rental under day billing,
    hour billing or an additive extra-hour renewal, then the discount floor
    and the tax. The per-room loops are methods proved equal to recursive
    sums over the room list. */
module Payment {
  import opened Domain

  // ---------------------------------------------------------------------
  // Day billing

  /** Day billing needs an end date for rooms still in the rental: the
      actual checkout date or the planned departure date (a day rental must
      carry one). */
  predicate DayEndKnown(r: Rental)
  {
    r.checkoutDate.Some? || r.departureDate.Some?
  }

  /** The first billed day of a room: its own check-in, else the arrival. */
  function DayStart(r: Rental, a: Assignment): (d: Date)
    ensures a.checkIn.Some? ==> d == a.checkIn.value
    ensures a.checkIn.None? ==> d == r.arrivalDate
  {
    match a.checkIn
    case Some(d) => d
    case None => r.arrivalDate
  }

  /** The day a room's billing stops: its own check-out, else the rental's
      checkout date, else its departure date. */
  function DayEnd(r: Rental, a: Assignment): (d: Date)
    requires DayEndKnown(r)
    ensures a.checkOut.Some? ==> d == a.checkOut.value
    ensures a.checkOut.None? && r.checkoutDate.Some? ==> d == r.checkoutDate.value
    ensures a.checkOut.None? && r.checkoutDate.None? ==> d == r.departureDate.value
  {
    match a.checkOut
    case Some(d) => d
    case None => if r.checkoutDate.Some? then r.checkoutDate.value else r.departureDate.value
  }

  /** Whole days between a room's start and end, in either order. */
  function RoomDays(r: Rental, a: Assignment): (n: nat)
    requires DayEndKnown(r)
    ensures DayStart(r, a) + n == DayEnd(r, a) || DayEnd(r, a) + n == DayStart(r, a)
  {
    var start := DayStart(r, a);
    var end := DayEnd(r, a);
    if start <= end then end - start else start - end
  }

  function DayCharge(r: Rental, s: Setting, a: Assignment): Money
    requires DayEndKnown(r)
  {
    (a.room.increment + s.priceDay) * (RoomDays(r, a) as real)
  }

  /** The day-billing total: the sum of every room's day charge. */
  function DayTotal(r: Rental, s: Setting, rooms: seq<Assignment>): Money
    requires DayEndKnown(r)
  {
    if |rooms| == 0 then 0.0
    else DayTotal(r, s, rooms[..|rooms| - 1]) + DayCharge(r, s, rooms[|rooms| - 1])
  }

  method CalculateAmountDay(r: Rental, s: Setting, rooms: seq<Assignment>) returns (amount: Money)
    requires DayEndKnown(r)
    ensures amount == DayTotal(r, s, rooms)
  {
    var endDate := if r.checkoutDate.Some? then r.checkoutDate.value else r.departureDate.value;
    amount := 0.0;
    var i := 0;
    while i < |rooms|
      invariant 0 <= i <= |rooms|
      invariant amount == DayTotal(r, s, rooms[..i])
    {
      var room := rooms[i];
      var startDate := if room.checkIn.Some? then room.checkIn.value else r.arrivalDate;
      var stop := if room.checkOut.Some? then room.checkOut.value else endDate;
      var days := if startDate <= stop then stop - startDate else startDate - stop;
      var amountExtra := room.room.increment + s.priceDay;
      amount := amount + amountExtra * (days as real);
      assert rooms[..i + 1][..i] == rooms[..i];
      i := i + 1;
    }
    assert rooms[..|rooms|] == rooms;
  }

  lemma {:induction false} DayTotalAppend(r: Rental, s: Setting, xs: seq<Assignment>, ys: seq<Assignment>)
    requires DayEndKnown(r)
    ensures DayTotal(r, s, xs + ys) == DayTotal(r, s, xs) + DayTotal(r, s, ys)
    decreases |ys|
  {
    if |ys| == 0 {
      assert xs + ys == xs;
    } else {
      var init := ys[..|ys| - 1];
      assert (xs + ys)[..|xs + ys| - 1] == xs + init;
      DayTotalAppend(r, s, xs, init);
    }
  }

  /** Removing one copy of the same element from two equal multisets
      leaves them equal. */
  lemma RemoveFromBoth<T>(init: seq<T>, x: T, before: seq<T>, after: seq<T>)
    requires multiset(init + [x]) == multiset(before + [x] + after)
    ensures multiset(init) == multiset(before + after)
  {
    var m, n := multiset(init), multiset(before + after);
    assert multiset(init + [x]) == m + multiset{x};
    assert before + [x] + after == before + ([x] + after);
    assert multiset(before + [x] + after) == n + multiset{x};
    assert m == (m + multiset{x}) - multiset{x};
    assert n == (n + multiset{x}) - multiset{x};
  }

  /** Any rearrangement of the same rows bills the same day total. */
  lemma {:induction false} DayTotalOrderFree(r: Rental, s: Setting, xs: seq<Assignment>, ys: seq<Assignment>)
    requires DayEndKnown(r)
    requires multiset(xs) == multiset(ys)
    ensures DayTotal(r, s, xs) == DayTotal(r, s, ys)
    decreases |xs|
  {
    if |xs| > 0 {
      var x := xs[|xs| - 1];
      var init := xs[..|xs| - 1];
      assert xs == init + [x];
      assert x in multiset(ys);
      var k :| 0 <= k < |ys| && ys[k] == x;
      assert ys == ys[..k] + [x] + ys[k + 1..];
      RemoveFromBoth(init, x, ys[..k], ys[k + 1..]);
      DayTotalOrderFree(r, s, init, ys[..k] + ys[k + 1..]);
      DayTotalWithout(r, s, ys[..k], x, ys[k + 1..]);
    } else {
      assert |ys| == 0;
    }
  }

  /** Taking one row out of a list lowers its total by that row's charge. */
  lemma DayTotalWithout(r: Rental, s: Setting, before: seq<Assignment>, x: Assignment, after: seq<Assignment>)
    requires DayEndKnown(r)
    ensures DayTotal(r, s, before + [x] + after) == DayTotal(r, s, before + after) + DayCharge(r, s, x)
  {
    DayTotalAppend(r, s, before + [x], after);
    DayTotalAppend(r, s, before, after);
    assert (before + [x])[..|before + [x]| - 1] == before;
  }

  lemma {:induction false} DayTotalNonNegative(r: Rental, s: Setting, rooms: seq<Assignment>)
    requires DayEndKnown(r)
    requires s.priceDay >= 0.0
    requires forall a :: a in rooms ==> a.room.increment >= 0.0
    ensures DayTotal(r, s, rooms) >= 0.0
  {
    if |rooms| > 0 {
      DayTotalNonNegative(r, s, rooms[..|rooms| - 1]);
      assert rooms[|rooms| - 1] in rooms;
    }
  }

  // ---------------------------------------------------------------------
  // Hour billing

  /** A date and a time as one instant in seconds. */
  function Instant(date: Date, time: Time): int
  {
    date * SecondsPerDay + time
  }

  /** The instant a room's hour billing stops: the room's own time-out (else
      the rental's departure time, where null reads as midnight) on the
      departure date, else on the arrival date. */
  function HourTo(r: Rental, a: Assignment): int
  {
    var time := if a.checkTimeout.Some? then a.checkTimeout
                else r.departureTime;
    var date := if r.departureDate.Some? then r.departureDate.value else r.arrivalDate;
    Instant(date, if time.Some? then time.value else 0)
  }

  /** Seconds between the arrival instant and the room's end instant, in
      either order. */
  function ElapsedSeconds(r: Rental, a: Assignment): (n: nat)
    ensures Instant(r.arrivalDate, r.arrivalTime) + n == HourTo(r, a)
            || HourTo(r, a) + n == Instant(r.arrivalDate, r.arrivalTime)
  {
    var from := Instant(r.arrivalDate, r.arrivalTime);
    var to := HourTo(r, a);
    if from <= to then to - from else from - to
  }

  /** Hours billed for an elapsed time: minutes rounded half up to two
      decimals (kept as hundredths of a minute), divided by 60 and rounded
      up. The result is the least whole number of hours covering the time. */
  function BilledHours(seconds: nat): (h: nat)
    ensures h * 3600 >= seconds
    ensures h == 0 || (h - 1) * 3600 < seconds
  {
    var hundredths := (10 * seconds + 3) / 6;
    var q := seconds / 3600;
    assert seconds == 3600 * q + seconds % 3600;
    assert seconds % 3600 == 0 ==> hundredths == 6000 * q;
    assert seconds % 3600 != 0 ==> 6000 * q + 2 <= hundredths <= 6000 * q + 5998;
    (hundredths + 5999) / 6000
  }

  function HourCharge(r: Rental, s: Setting, a: Assignment): Money
  {
    (BilledHours(ElapsedSeconds(r, a)) as real) * s.priceHour + a.room.increment
  }

  /** The hour-billing total: the sum of every room's hour charge. */
  function HourTotal(r: Rental, s: Setting, rooms: seq<Assignment>): Money
  {
    if |rooms| == 0 then 0.0
    else HourTotal(r, s, rooms[..|rooms| - 1]) + HourCharge(r, s, rooms[|rooms| - 1])
  }

  method CalculateAmountTime(r: Rental, s: Setting, rooms: seq<Assignment>) returns (amount: Money)
    ensures amount == HourTotal(r, s, rooms)
  {
    amount := 0.0;
    var i := 0;
    while i < |rooms|
      invariant 0 <= i <= |rooms|
      invariant amount == HourTotal(r, s, rooms[..i])
    {
      var room := rooms[i];
      var departureTime := if room.checkTimeout.Some? then room.checkTimeout else r.departureTime;
      var toDate := if r.departureDate.Some? then r.departureDate.value else r.arrivalDate;
      var toTime := Instant(toDate, if departureTime.Some? then departureTime.value else 0);
      var fromTime := Instant(r.arrivalDate, r.arrivalTime);
      var seconds: nat := if fromTime <= toTime then toTime - fromTime else fromTime - toTime;
      assert seconds == ElapsedSeconds(r, room);
      var totalTime := BilledHours(seconds);
      var amountPerHour := (totalTime as real) * s.priceHour;
      assert amountPerHour + room.room.increment == HourCharge(r, s, room);
      amount := amount + (amountPerHour + room.room.increment);
      assert rooms[..i + 1][..i] == rooms[..i];
      i := i + 1;
    }
    assert rooms[..|rooms|] == rooms;
  }

  lemma {:induction false} HourTotalAppend(r: Rental, s: Setting, xs: seq<Assignment>, ys: seq<Assignment>)
    ensures HourTotal(r, s, xs + ys) == HourTotal(r, s, xs) + HourTotal(r, s, ys)
    decreases |ys|
  {
    if |ys| == 0 {
      assert xs + ys == xs;
    } else {
      var init := ys[..|ys| - 1];
      assert (xs + ys)[..|xs + ys| - 1] == xs + init;
      HourTotalAppend(r, s, xs, init);
    }
  }

  /** Any rearrangement of the same rows bills the same hour total. */
  lemma {:induction false} HourTotalOrderFree(r: Rental, s: Setting, xs: seq<Assignment>, ys: seq<Assignment>)
    requires multiset(xs) == multiset(ys)
    ensures HourTotal(r, s, xs) == HourTotal(r, s, ys)
    decreases |xs|
  {
    if |xs| > 0 {
      var x := xs[|xs| - 1];
      var init := xs[..|xs| - 1];
      assert xs == init + [x];
      assert x in multiset(ys);
      var k :| 0 <= k < |ys| && ys[k] == x;
      assert ys == ys[..k] + [x] + ys[k + 1..];
      RemoveFromBoth(init, x, ys[..k], ys[k + 1..]);
      HourTotalOrderFree(r, s, init, ys[..k] + ys[k + 1..]);
      HourTotalWithout(r, s, ys[..k], x, ys[k + 1..]);
    } else {
      assert |ys| == 0;
    }
  }

  /** Taking one row out of a list lowers its total by that row's charge. */
  lemma HourTotalWithout(r: Rental, s: Setting, before: seq<Assignment>, x: Assignment, after: seq<Assignment>)
    ensures HourTotal(r, s, before + [x] + after) == HourTotal(r, s, before + after) + HourCharge(r, s, x)
  {
    HourTotalAppend(r, s, before + [x], after);
    HourTotalAppend(r, s, before, after);
    assert (before + [x])[..|before + [x]| - 1] == before;
  }

  lemma {:induction false} HourTotalNonNegative(r: Rental, s: Setting, rooms: seq<Assignment>)
    requires s.priceHour >= 0.0
    requires forall a :: a in rooms ==> a.room.increment >= 0.0
    ensures HourTotal(r, s, rooms) >= 0.0
  {
    if |rooms| > 0 {
      HourTotalNonNegative(r, s, rooms[..|rooms| - 1]);
      assert rooms[|rooms| - 1] in rooms;
    }
  }

  // ---------------------------------------------------------------------
  // Extra-hour renewal, discount, and the listener

  datatype Renewal = Renewal(amount: Money, rental: Rental)

  /** A renewal adds the pending extension's whole hours at the hourly
      price to what the rental already owed, and consumes the extension. */
  function CalculateAmountDayTimeExtra(r: Rental, s: Setting): (out: Renewal)
    requires r.extraHour.Some?
    ensures out.amount - r.amount == (r.extraHour.value.hours as real) * s.priceHour
    ensures out.rental.extraHour.None?
    ensures out.rental == r.(extraHour := None)
  {
    var extraHours := r.extraHour.value.hours;
    Renewal(r.amount + (extraHours as real) * s.priceHour, r.(extraHour := None))
  }

  /** The amount after the discount; anything below one unit is billed as 0. */
  function CalculateDiscount(amount: Money, discount: Money): (result: Money)
    ensures result >= 0.0
    ensures result == 0.0 || result >= 1.0
    ensures result != 0.0 ==> result == amount - discount
    ensures amount - discount >= 1.0 ==> result == amount - discount
  {
    var result := amount - discount;
    if result < 1.0 then 0.0 else result
  }

  /** The discount floor agrees with `max(0, amount - discount)` except when
      the difference lies strictly between 0 and 1, where it bills 0. */
  lemma DiscountVersusMax(amount: Money, discount: Money)
    ensures var d := amount - discount;
            CalculateDiscount(amount, discount) == (if d > 0.0 then d else 0.0) <==> !(0.0 < d < 1.0)
  {
  }

  /** What billing demands of a rental: a day rental has an end date. */
  predicate Billable(r: Rental)
  {
    r.kind == Days ==> DayEndKnown(r)
  }

  /** Dispatches on the billing mode, applies the discount and the tax, and
      writes the three amounts back. */
  method Handle(r: Rental, s: Setting, x: Externals) returns (r': Rental)
    requires Billable(r)
    ensures r.kind == Days && r.extraHour.Some? ==>
              r'.amount == CalculateDiscount(r.amount + (r.extraHour.value.hours as real) * s.priceHour, r.discount)
    ensures r.kind == Days && r.extraHour.None? ==>
              r'.amount == CalculateDiscount(DayTotal(r, s, r.rooms), r.discount)
    ensures r.kind == Hours ==> r'.amount == CalculateDiscount(HourTotal(r, s, r.rooms), r.discount)
    ensures r'.amount >= 0.0
    ensures r'.amountImpost == x.calculateImpost(r'.amount)
    ensures r'.amountTotal == r'.amount + r'.amountImpost
    ensures r.kind == Days ==> r'.extraHour.None?
    ensures r.kind == Hours ==> r'.extraHour == r.extraHour
    ensures Billable(r')
    ensures r' == r.(amount := r'.amount, amountImpost := r'.amountImpost,
                     amountTotal := r'.amountTotal, extraHour := r'.extraHour)
  {
    var rental := r;
    var amountRental: Money;
    if rental.kind == Days {
      if rental.extraHour.Some? {
        var renewal := CalculateAmountDayTimeExtra(rental, s);
        amountRental := renewal.amount;
        rental := renewal.rental;
      } else {
        amountRental := CalculateAmountDay(rental, s, rental.rooms);
      }
    } else {
      amountRental := CalculateAmountTime(rental, s, rental.rooms);
    }
    var amount := CalculateDiscount(amountRental, rental.discount);
    var impost := x.calculateImpost(amount);
    var total := amount + impost;
    r' := rental.(amount := amount, amountImpost := impost, amountTotal := total);
  }

  // ---------------------------------------------------------------------
  // Worked examples with the seeded settings (day 3400, hour 600)

  lemma DayChargeExample(r: Rental, a: Assignment)
    requires r.departureDate == Some(12) && r.checkoutDate.None? && r.arrivalDate == 10
    requires a.checkIn.None? && a.checkOut.None? && a.room.increment == 200.0
    ensures DayCharge(r, Setting(3400.0, 600.0, Duration(4, 0, 0)), a) == 7200.0
  {
  }

  lemma HourChargeExample(r: Rental, a: Assignment)
    requires r.departureDate.None? && r.arrivalDate == 10 && r.arrivalTime == 8 * 3600
    requires a.checkTimeout == Some(8 * 3600 + 125 * 60)
    ensures BilledHours(ElapsedSeconds(r, a)) == 3
    ensures HourCharge(r, Setting(3400.0, 600.0, Duration(4, 0, 0)), a) == 1800.0 + a.room.increment
  {
  }

  lemma DiscountExamples()
    ensures CalculateDiscount(100.0, 150.0) == 0.0
    ensures CalculateDiscount(100.0, 30.0) == 70.0
    ensures CalculateDiscount(100.5, 100.0) == 0.0
  {
  }
}
