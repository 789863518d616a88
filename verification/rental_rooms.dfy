/** Room bookkeeping of a rental: which pivot rows are still open, closing
    the rental once every room has left, and the room states written on
    checkout and on cancellation. */
module RentalRooms {
  import opened Domain

  /** The rows still occupying their room (`check_out` null). */
  function OpenRooms(rooms: seq<Assignment>): (open: seq<Assignment>)
    ensures forall a :: a in open <==> a in rooms && a.checkOut.None?
    ensures |open| <= |rooms|
  {
    if |rooms| == 0 then []
    else if rooms[0].checkOut.None? then [rooms[0]] + OpenRooms(rooms[1..])
    else OpenRooms(rooms[1..])
  }

  /** The rows whose room has already left (`check_out` set). */
  function ClosedRooms(rooms: seq<Assignment>): (closed: seq<Assignment>)
    ensures forall a :: a in closed <==> a in rooms && a.checkOut.Some?
    ensures |closed| <= |rooms|
  {
    if |rooms| == 0 then []
    else if rooms[0].checkOut.Some? then [rooms[0]] + ClosedRooms(rooms[1..])
    else ClosedRooms(rooms[1..])
  }

  /** Open and closed rows split the room list: together they hold every
      row exactly as often as the list does. */
  lemma {:induction false} OpenClosedPartition(rooms: seq<Assignment>)
    ensures multiset(OpenRooms(rooms)) + multiset(ClosedRooms(rooms)) == multiset(rooms)
    ensures |OpenRooms(rooms)| + |ClosedRooms(rooms)| == |rooms|
  {
    if |rooms| > 0 {
      OpenClosedPartition(rooms[1..]);
      assert rooms == [rooms[0]] + rooms[1..];
    }
  }

  /** Closes the rental once none of its rooms is still occupied. */
  function ConfirmCheckoutRoom(r: Rental): (r': Rental)
    ensures r'.checkout <==> r.checkout || forall a :: a in r.rooms ==> a.checkOut.Some?
    ensures r' == r.(checkout := r'.checkout)
  {
    var open := OpenRooms(r.rooms);
    if |open| == 0 then r.(checkout := true)
    else
      assert open[0] in r.rooms && open[0].checkOut.None?;
      r
  }

  function WithState(a: Assignment, state: RoomState): Assignment
  {
    a.(room := a.room.(state := state))
  }

  /** Every row of a room records the same room state. All rows of one
      room share a single room record, so this holds of every rental. */
  predicate SharedRoomStates(rooms: seq<Assignment>)
  {
    forall i, j :: 0 <= i < |rooms| && 0 <= j < |rooms| && rooms[i].room.id == rooms[j].room.id ==>
      rooms[i].room.state == rooms[j].room.state
  }

  /** Writes `state` to each room whose id is in `ids`. Since a room is one
      record, every row of that room sees the new state. */
  function SetRoomState(rooms: seq<Assignment>, ids: set<int>, state: RoomState): (out: seq<Assignment>)
    ensures |out| == |rooms|
    ensures forall i :: 0 <= i < |rooms| && rooms[i].room.id in ids ==> out[i] == WithState(rooms[i], state)
    ensures forall i :: 0 <= i < |rooms| && rooms[i].room.id !in ids ==> out[i] == rooms[i]
  {
    if |rooms| == 0 then []
    else
      var head := if rooms[0].room.id in ids then WithState(rooms[0], state) else rooms[0];
      [head] + SetRoomState(rooms[1..], ids, state)
  }

  /** A closed row whose checkout day has come and whose room is still
      marked occupied. */
  predicate DueForMaintenance(a: Assignment, today: Date)
  {
    a.checkOut.Some? && a.checkOut.value <= today && a.room.state == Ocupada
  }

  /** The room has a row due for maintenance. */
  predicate RoomDue(rooms: seq<Assignment>, roomId: int, today: Date)
  {
    exists b :: b in rooms && b.room.id == roomId && DueForMaintenance(b, today)
  }

  /** Puts into maintenance every room that has a row due for it. */
  function StateRoomCheckout(r: Rental, today: Date): (r': Rental)
    ensures |r'.rooms| == |r.rooms|
    ensures forall i :: 0 <= i < |r.rooms| && RoomDue(r.rooms, r.rooms[i].room.id, today) ==>
              r'.rooms[i].room.state == Mantenimiento
              && r'.rooms[i] == r.rooms[i].(room := r'.rooms[i].room)
              && r'.rooms[i].room == r.rooms[i].room.(state := Mantenimiento)
    ensures forall i :: 0 <= i < |r.rooms| && !RoomDue(r.rooms, r.rooms[i].room.id, today) ==>
              r'.rooms[i] == r.rooms[i]
    ensures r' == r.(rooms := r'.rooms)
  {
    var ids := set a | a in r.rooms && DueForMaintenance(a, today) :: a.room.id;
    assert forall i :: 0 <= i < |r.rooms| ==>
             (r.rooms[i].room.id in ids <==> RoomDue(r.rooms, r.rooms[i].room.id, today));
    r.(rooms := SetRoomState(r.rooms, ids, Mantenimiento))
  }

  /** After the sweep no row is due any more, so a second sweep the same
      day changes nothing. */
  lemma StateRoomCheckoutIdempotent(r: Rental, today: Date)
    ensures StateRoomCheckout(StateRoomCheckout(r, today), today) == StateRoomCheckout(r, today)
  {
  }

  /** Both room sweeps keep every row of a room agreeing on its state. */
  lemma RoomSweepsKeepSharedStates(r: Rental, today: Date)
    requires SharedRoomStates(r.rooms)
    ensures SharedRoomStates(StateRoomCheckout(r, today).rooms)
    ensures SharedRoomStates(CancelRooms(r).rooms)
  {
  }

  /** The room has a row still occupying it. */
  predicate RoomOpen(rooms: seq<Assignment>, roomId: int)
  {
    exists b :: b in rooms && b.room.id == roomId && b.checkOut.None?
  }

  /** Frees every room still occupied by a rental that is not a reservation. */
  function CancelRooms(r: Rental): (r': Rental)
    ensures r.reservation ==> r' == r
    ensures |r'.rooms| == |r.rooms|
    ensures forall i :: 0 <= i < |r.rooms| && !r.reservation && RoomOpen(r.rooms, r.rooms[i].room.id) ==>
              r'.rooms[i].room.state == Disponible
              && r'.rooms[i].room == r.rooms[i].room.(state := Disponible)
              && r'.rooms[i] == r.rooms[i].(room := r'.rooms[i].room)
    ensures forall i :: 0 <= i < |r.rooms| && !RoomOpen(r.rooms, r.rooms[i].room.id) ==> r'.rooms[i] == r.rooms[i]
    ensures r' == r.(rooms := r'.rooms)
  {
    if !r.reservation then
      var ids := set a | a in r.rooms && a.checkOut.None? :: a.room.id;
      assert forall i :: 0 <= i < |r.rooms| ==>
               (r.rooms[i].room.id in ids <==> RoomOpen(r.rooms, r.rooms[i].room.id));
      r.(rooms := SetRoomState(r.rooms, ids, Disponible))
    else
      r
  }

  lemma CancelRoomsIdempotent(r: Rental)
    ensures CancelRooms(CancelRooms(r)) == CancelRooms(r)
  {
  }

  /** A row whose check-in is on or after `date`. A null check-in never
      matches, as SQL's `check_in >= date` is not true for NULL. */
  predicate StartsFrom(a: Assignment, date: Date)
  {
    a.checkIn.Some? && a.checkIn.value >= date
  }

  /** The room has some row that starts on or after `date`. */
  predicate RoomStartsFrom(rooms: seq<Assignment>, roomId: int, date: Date)
  {
    exists b :: b in rooms && b.room.id == roomId && StartsFrom(b, date)
  }

  /** Detaches the rooms in `ids`: each of their rows goes, and every other
      row stays, as often as it was there. */
  function WithoutRooms(rooms: seq<Assignment>, ids: set<int>): (kept: seq<Assignment>)
    ensures forall a :: a in kept <==> a in rooms && a.room.id !in ids
    ensures forall a: Assignment :: a.room.id !in ids ==> multiset(kept)[a] == multiset(rooms)[a]
    ensures |kept| <= |rooms|
  {
    if |rooms| == 0 then []
    else
      assert rooms == [rooms[0]] + rooms[1..];
      if rooms[0].room.id in ids then WithoutRooms(rooms[1..], ids)
      else [rooms[0]] + WithoutRooms(rooms[1..], ids)
  }

  /** Detaching from a list split in two detaches from each part and keeps
      the order of the remaining rows. */
  lemma {:induction false} WithoutRoomsAppend(xs: seq<Assignment>, ys: seq<Assignment>, ids: set<int>)
    ensures WithoutRooms(xs + ys, ids) == WithoutRooms(xs, ids) + WithoutRooms(ys, ids)
  {
    if |xs| > 0 {
      assert (xs + ys)[1..] == xs[1..] + ys;
      WithoutRoomsAppend(xs[1..], ys, ids);
    } else {
      assert xs + ys == ys;
    }
  }

  /** Detaching rooms none of the rows belongs to changes nothing. */
  lemma {:induction false} WithoutOtherRooms(rooms: seq<Assignment>, ids: set<int>)
    requires forall a :: a in rooms ==> a.room.id !in ids
    ensures WithoutRooms(rooms, ids) == rooms
  {
    if |rooms| > 0 {
      assert rooms[0] in rooms;
      WithoutOtherRooms(rooms[1..], ids);
      assert rooms == [rooms[0]] + rooms[1..];
    }
  }

  /** Detaches every room with a row starting on or after `date`. Detaching
      goes by room id, so every row of such a room goes, whatever its own
      check-in. A room can hold several rows of one rental, one per stay
      in it. */
  function DeleteCheckRoomsDate(r: Rental, date: Date): (r': Rental)
    ensures forall a :: a in r'.rooms <==> a in r.rooms && !RoomStartsFrom(r.rooms, a.room.id, date)
    ensures forall a: Assignment :: !RoomStartsFrom(r.rooms, a.room.id, date) ==>
              multiset(r'.rooms)[a] == multiset(r.rooms)[a]
    ensures (forall a :: a in r.rooms ==> !StartsFrom(a, date)) ==> r' == r
    ensures r' == r.(rooms := r'.rooms)
  {
    var ids := set a | a in r.rooms && StartsFrom(a, date) :: a.room.id;
    if |ids| > 0 then r.(rooms := WithoutRooms(r.rooms, ids))
    else
      assert forall b :: b in r.rooms && StartsFrom(b, date) ==> b.room.id in ids;
      r
  }
}
