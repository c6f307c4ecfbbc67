/**
 * Creating, rescheduling, cancelling and deleting table bookings. A booking
 * request names a start time; the service reserves the table for the fixed
 * window [start, start + 2h) and refuses a window that overlaps an active
 * booking of the same table.
 */
module BookingService {
  import opened Wrappers
  import opened Responses
  import opened Entities
  import opened Overlap
  import opened Text
  import opened Data
  import BookingStatus
  import TableService

  const TimeNotInFuture: string := "Booking time must be in the future"
  const TableNotFound: string := "Table not found"
  const AlreadyBooked: string := "Table is already booked for the selected time"
  const BookingNotFound: string := "Booking not found"
  const NotUpdated: string := "Booking update failed"
  const AlreadyCancelled: string := "Booking is already cancelled"
  const Cancelled: string := "Booking cancelled successfully"
  const Deleted: string := "Booking deleted successfully"

  function GuestsOutOfRange(seats: int): string
  {
    "Guests number must be between 1 and " + IntToString(seats)
  }

  /** The end of the fixed window that starts at `time`. */
  function WindowEnd(time: int): int
  {
    time + Hours(BookingDurationHours)
  }

  /**
   * The overlap query: some booking of `tableId`, other than `exclude`, not
   * cancelled, whose window [start, start + 2h) meets [time, time + 2h).
   */
  predicate OverlapExists(bookings: map<int, Booking>, tableId: int, time: int, exclude: Option<int>)
  {
    exists k :: k in bookings && Some(k) != exclude && bookings[k].tableId == tableId && Active(bookings[k]) &&
      Overlaps(time, WindowEnd(time), bookings[k].bookingFrom, WindowEnd(bookings[k].bookingFrom))
  }

  /** The booking a successful create stores under key `id`. */
  function NewBooking(id: int, dto: CreateBookingDto): Booking
  {
    Booking(id, dto.fullName, dto.phoneNumber, dto.tableId, dto.bookingTime, WindowEnd(dto.bookingTime),
            dto.guests, BookingStatus.Pending)
  }

  /** A booking after a successful update: new window, guests and status; same table, name and phone. */
  function Rescheduled(b: Booking, dto: UpdateBookingDto): Booking
  {
    b.(bookingFrom := dto.bookingTime, bookingTo := WindowEnd(dto.bookingTime), guests := dto.guests, status := dto.status)
  }

  /** A table exists and seats between one guest and its capacity. */
  predicate Seats(tables: map<int, Table>, tableId: int, guests: int)
  {
    tableId in tables && 1 <= guests <= tables[tableId].seats
  }

  /** Storing `b` under `k`, when no active booking of its table overlaps it, keeps active bookings disjoint. */
  lemma StoreKeepsDisjoint(bookings: map<int, Booking>, k: int, b: Booking)
    requires BookingWindowsFixed(bookings) && ActiveBookingsDisjoint(bookings)
    requires b.bookingTo == WindowEnd(b.bookingFrom)
    requires !OverlapExists(bookings, b.tableId, b.bookingFrom, Some(k))
    ensures BookingWindowsFixed(bookings[k := b]) && ActiveBookingsDisjoint(bookings[k := b])
  {
    var m := bookings[k := b];
    forall i, j | i in m && j in m && i != j && m[i].tableId == m[j].tableId && Active(m[i]) && Active(m[j])
      ensures !Overlaps(m[i].bookingFrom, m[i].bookingTo, m[j].bookingFrom, m[j].bookingTo)
    {
      if i == k {
        assert !Overlaps(b.bookingFrom, WindowEnd(b.bookingFrom), m[j].bookingFrom, WindowEnd(m[j].bookingFrom));
      } else if j == k {
        assert !Overlaps(b.bookingFrom, WindowEnd(b.bookingFrom), m[i].bookingFrom, WindowEnd(m[i].bookingFrom));
      }
    }
  }

  /** `CreateBookingAsync`. */
  method CreateBooking(ctx: DataContext, dto: CreateBookingDto, now: int) returns (r: Response<Booking>)
    requires ctx.Valid()
    modifies ctx`bookings, ctx`nextId
    ensures ctx.Valid()
    ensures dto.bookingTime <= now ==> r == FromError(BadRequest, TimeNotInFuture)
    ensures now < dto.bookingTime && dto.tableId !in ctx.tables ==> r == FromError(BadRequest, TableNotFound)
    ensures now < dto.bookingTime && dto.tableId in ctx.tables && !Seats(ctx.tables, dto.tableId, dto.guests) ==>
      r == FromError(BadRequest, GuestsOutOfRange(ctx.tables[dto.tableId].seats))
    ensures (now < dto.bookingTime && Seats(ctx.tables, dto.tableId, dto.guests) &&
             OverlapExists(old(ctx.bookings), dto.tableId, dto.bookingTime, None)) ==>
      r == FromError(BadRequest, AlreadyBooked)
    ensures r.isSuccess <==>
      now < dto.bookingTime && Seats(ctx.tables, dto.tableId, dto.guests) &&
      !OverlapExists(old(ctx.bookings), dto.tableId, dto.bookingTime, None)
    ensures r.isSuccess ==>
      old(ctx.nextId) !in old(ctx.bookings) &&
      r == Success(NewBooking(old(ctx.nextId), dto)) &&
      ctx.bookings == old(ctx.bookings)[old(ctx.nextId) := NewBooking(old(ctx.nextId), dto)] &&
      ctx.nextId == old(ctx.nextId) + 1
    ensures !r.isSuccess ==> ctx.bookings == old(ctx.bookings) && ctx.nextId == old(ctx.nextId)
  {
    if dto.bookingTime <= now {
      return FromError(BadRequest, TimeNotInFuture);
    }
    if dto.tableId !in ctx.tables {
      return FromError(BadRequest, TableNotFound);
    }
    var table := ctx.tables[dto.tableId];
    if dto.guests < 1 || dto.guests > table.seats {
      return FromError(BadRequest, GuestsOutOfRange(table.seats));
    }
    if OverlapExists(ctx.bookings, dto.tableId, dto.bookingTime, None) {
      return FromError(BadRequest, AlreadyBooked);
    }
    var booking := NewBooking(ctx.nextId, dto);
    StoreKeepsDisjoint(ctx.bookings, ctx.nextId, booking);
    ctx.bookings := ctx.bookings[ctx.nextId := booking];
    ctx.nextId := ctx.nextId + 1;
    r := Success(booking);
  }

  /** `UpdateBookingAsync`: validated against the booking's own table, ignoring the booking itself. */
  method UpdateBooking(ctx: DataContext, id: int, dto: UpdateBookingDto, now: int) returns (r: Response<Booking>)
    requires ctx.Valid()
    modifies ctx`bookings
    ensures ctx.Valid()
    ensures id !in old(ctx.bookings) ==> r == FromError(NotFound, BookingNotFound)
    ensures id in old(ctx.bookings) && dto.bookingTime <= now ==> r == FromError(BadRequest, TimeNotInFuture)
    ensures id in old(ctx.bookings) && now < dto.bookingTime && old(ctx.bookings)[id].tableId !in ctx.tables ==>
      r == FromError(BadRequest, TableNotFound)
    ensures (id in old(ctx.bookings) && now < dto.bookingTime && old(ctx.bookings)[id].tableId in ctx.tables &&
             !Seats(ctx.tables, old(ctx.bookings)[id].tableId, dto.guests)) ==>
      r == FromError(BadRequest, GuestsOutOfRange(ctx.tables[old(ctx.bookings)[id].tableId].seats))
    ensures (id in old(ctx.bookings) && now < dto.bookingTime && Seats(ctx.tables, old(ctx.bookings)[id].tableId, dto.guests) &&
             OverlapExists(old(ctx.bookings), old(ctx.bookings)[id].tableId, dto.bookingTime, Some(id))) ==>
      r == FromError(BadRequest, AlreadyBooked)
    ensures (id in old(ctx.bookings) && now < dto.bookingTime && Seats(ctx.tables, old(ctx.bookings)[id].tableId, dto.guests) &&
             !OverlapExists(old(ctx.bookings), old(ctx.bookings)[id].tableId, dto.bookingTime, Some(id)) &&
             Rescheduled(old(ctx.bookings)[id], dto) == old(ctx.bookings)[id]) ==>
      r == FromError(BadRequest, NotUpdated)
    ensures r.isSuccess <==>
      id in old(ctx.bookings) && now < dto.bookingTime &&
      Seats(ctx.tables, old(ctx.bookings)[id].tableId, dto.guests) &&
      !OverlapExists(old(ctx.bookings), old(ctx.bookings)[id].tableId, dto.bookingTime, Some(id)) &&
      Rescheduled(old(ctx.bookings)[id], dto) != old(ctx.bookings)[id]
    ensures r.isSuccess ==>
      r == Success(Rescheduled(old(ctx.bookings)[id], dto)) &&
      ctx.bookings == old(ctx.bookings)[id := Rescheduled(old(ctx.bookings)[id], dto)]
    ensures !r.isSuccess ==> ctx.bookings == old(ctx.bookings)
  {
    if id !in ctx.bookings {
      return FromError(NotFound, BookingNotFound);
    }
    var booking := ctx.bookings[id];
    if dto.bookingTime <= now {
      return FromError(BadRequest, TimeNotInFuture);
    }
    if booking.tableId !in ctx.tables {
      return FromError(BadRequest, TableNotFound);
    }
    var table := ctx.tables[booking.tableId];
    if dto.guests < 1 || dto.guests > table.seats {
      return FromError(BadRequest, GuestsOutOfRange(table.seats));
    }
    if OverlapExists(ctx.bookings, booking.tableId, dto.bookingTime, Some(id)) {
      return FromError(BadRequest, AlreadyBooked);
    }
    var updated := Rescheduled(booking, dto);
    if updated == booking {
      return FromError(BadRequest, NotUpdated);
    }
    StoreKeepsDisjoint(ctx.bookings, id, updated);
    ctx.bookings := ctx.bookings[id := updated];
    r := Success(updated);
  }

  /** `CancelBookingAsync`: not idempotent. */
  method CancelBooking(ctx: DataContext, id: int) returns (r: Response<string>)
    requires ctx.Valid()
    modifies ctx`bookings
    ensures ctx.Valid()
    ensures id !in old(ctx.bookings) ==> r == FromError(NotFound, BookingNotFound)
    ensures id in old(ctx.bookings) && !Active(old(ctx.bookings)[id]) ==> r == FromError(BadRequest, AlreadyCancelled)
    ensures r.isSuccess <==> id in old(ctx.bookings) && Active(old(ctx.bookings)[id])
    ensures r.isSuccess ==>
      r == Success(Cancelled) &&
      ctx.bookings == old(ctx.bookings)[id := old(ctx.bookings)[id].(status := BookingStatus.Cancelled)]
    ensures !r.isSuccess ==> ctx.bookings == old(ctx.bookings)
  {
    if id !in ctx.bookings {
      return FromError(NotFound, BookingNotFound);
    }
    var booking := ctx.bookings[id];
    if booking.status == BookingStatus.Cancelled {
      return FromError(BadRequest, AlreadyCancelled);
    }
    ctx.bookings := ctx.bookings[id := booking.(status := BookingStatus.Cancelled)];
    r := Success(Cancelled);
  }

  /** `DeleteBookingAsync`: removes the booking whatever its status. */
  method DeleteBooking(ctx: DataContext, id: int) returns (r: Response<string>)
    requires ctx.Valid()
    modifies ctx`bookings
    ensures ctx.Valid()
    ensures r.isSuccess <==> id in old(ctx.bookings)
    ensures !r.isSuccess ==> r == FromError(NotFound, BookingNotFound) && ctx.bookings == old(ctx.bookings)
    ensures r.isSuccess ==> r == Success(Deleted) && ctx.bookings == old(ctx.bookings) - {id}
  {
    if id !in ctx.bookings {
      return FromError(NotFound, BookingNotFound);
    }
    ctx.bookings := ctx.bookings - {id};
    r := Success(Deleted);
  }

  /**
   * An active booking resubmitted with its own start time never conflicts:
   * the update query skips the booking itself, and no other active booking
   * of the table overlaps it.
   */
  lemma ResubmittingOwnTimeDoesNotConflict(bookings: map<int, Booking>, id: int)
    requires BookingWindowsFixed(bookings) && ActiveBookingsDisjoint(bookings)
    requires id in bookings && Active(bookings[id])
    ensures !OverlapExists(bookings, bookings[id].tableId, bookings[id].bookingFrom, Some(id))
  {
  }

  /** Without the self-exclusion an active booking would conflict with itself. */
  lemma SelfExclusionIsNeeded(bookings: map<int, Booking>, id: int)
    requires id in bookings && Active(bookings[id])
    ensures OverlapExists(bookings, bookings[id].tableId, bookings[id].bookingFrom, None)
  {
    var b := bookings[id];
    assert Overlaps(b.bookingFrom, WindowEnd(b.bookingFrom), b.bookingFrom, WindowEnd(b.bookingFrom));
  }

  /**
   * The edges of an active booking `k` in any store: a request that starts
   * exactly when `k` ends, or exactly two hours before `k` starts, conflicts
   * only if some other booking blocks it; one that starts a minute before `k`
   * ends always conflicts.
   */
  lemma ExactlyTwoHoursApartDoNotConflict(bookings: map<int, Booking>, k: int)
    requires k in bookings && Active(bookings[k])
    ensures var b := bookings[k];
      OverlapExists(bookings, b.tableId, WindowEnd(b.bookingFrom), None) <==>
      OverlapExists(bookings - {k}, b.tableId, WindowEnd(b.bookingFrom), None)
    ensures var b := bookings[k];
      OverlapExists(bookings, b.tableId, b.bookingFrom - Hours(BookingDurationHours), None) <==>
      OverlapExists(bookings - {k}, b.tableId, b.bookingFrom - Hours(BookingDurationHours), None)
    ensures OverlapExists(bookings, bookings[k].tableId, WindowEnd(bookings[k].bookingFrom) - 1, None)
  {
    var b := bookings[k];
    var rest := bookings - {k};
    forall time | time == WindowEnd(b.bookingFrom) || time == b.bookingFrom - Hours(BookingDurationHours)
      ensures OverlapExists(bookings, b.tableId, time, None) <==> OverlapExists(rest, b.tableId, time, None)
    {
      if OverlapExists(bookings, b.tableId, time, None) {
        var j :| j in bookings && Some(j) != None && bookings[j].tableId == b.tableId && Active(bookings[j]) &&
          Overlaps(time, WindowEnd(time), bookings[j].bookingFrom, WindowEnd(bookings[j].bookingFrom));
        assert j != k;
        assert j in rest && rest[j] == bookings[j];
      }
      if OverlapExists(rest, b.tableId, time, None) {
        var j :| j in rest && Some(j) != None && rest[j].tableId == b.tableId && Active(rest[j]) &&
          Overlaps(time, WindowEnd(time), rest[j].bookingFrom, WindowEnd(rest[j].bookingFrom));
        assert j in bookings && bookings[j] == rest[j];
      }
    }
    var late := WindowEnd(b.bookingFrom) - 1;
    assert Overlaps(late, WindowEnd(late), b.bookingFrom, WindowEnd(b.bookingFrom));
  }

  /**
   * The booking service's conflict test and the table service's availability
   * test agree on stored bookings: a start time conflicts exactly when the
   * table is not free for the two hours from it.
   */
  lemma ConflictIffNotAvailable(bookings: map<int, Booking>, tableId: int, time: int)
    requires BookingWindowsFixed(bookings)
    ensures OverlapExists(bookings, tableId, time, None) <==>
      !TableService.Free(bookings, tableId, time, time + Hours(TableService.DefaultBookingDurationHours))
  {
    if OverlapExists(bookings, tableId, time, None) {
      var k :| k in bookings && Some(k) != None && bookings[k].tableId == tableId && Active(bookings[k]) &&
        Overlaps(time, WindowEnd(time), bookings[k].bookingFrom, WindowEnd(bookings[k].bookingFrom));
      assert TableService.Blocks(bookings[k], tableId, time, time + Hours(TableService.DefaultBookingDurationHours));
    }
    if !TableService.Free(bookings, tableId, time, time + Hours(TableService.DefaultBookingDurationHours)) {
      var k :| k in bookings && TableService.Blocks(bookings[k], tableId, time, time + Hours(TableService.DefaultBookingDurationHours));
      assert Overlaps(time, WindowEnd(time), bookings[k].bookingFrom, WindowEnd(bookings[k].bookingFrom));
    }
  }
}
