/**
 * Tables of a restaurant: the filtered, paged listing, availability of one
 * table for a time window, the available tables of a restaurant, and adding,
 * updating and deleting tables.
 */
module TableService {
  import opened Wrappers
  import opened Responses
  import opened Entities
  import opened Overlap
  import opened Linq
  import opened Data
  import TableStatus

  const DefaultBookingDurationHours: int := 2

  const RestaurantNotFound: string := "Restaurant not found"
  const TableNotFound: string := "Table not found"
  const NotUpdated: string := "Table not updated"
  const Deleted: string := "Table deleted successfully"

  /** `TableFilter`; a `None` criterion is not applied. */
  datatype TableFilter = TableFilter(
    status: Option<string>, minSeats: Option<int>, maxSeats: Option<int>, pageNumber: int, pageSize: int)

  predicate MatchesFilter(f: TableFilter, t: Table)
  {
    && (f.status.Some? ==> t.status == f.status.value)
    && (f.minSeats.Some? ==> t.seats >= f.minSeats.value)
    && (f.maxSeats.Some? ==> t.seats <= f.maxSeats.value)
  }

  /** A non-cancelled booking of `tableId` whose [from, to) meets [start, end). */
  predicate Blocks(b: Booking, tableId: int, start: int, end: int)
  {
    b.tableId == tableId && Active(b) && Overlaps(b.bookingFrom, b.bookingTo, start, end)
  }

  /** The tables of one restaurant, in key order. */
  function TablesOf(ctx: DataContext, restaurantId: int): seq<Table>
    reads ctx
  {
    Where(Rows(ctx.tables, 1, ctx.nextId), (t: Table) => t.restaurantId == restaurantId)
  }

  /** The query of `GetTablesByRestaurantIdAsync` before paging. */
  function MatchingTables(ctx: DataContext, restaurantId: int, filter: TableFilter): seq<Table>
    reads ctx
  {
    Where(TablesOf(ctx, restaurantId), (t: Table) => MatchesFilter(filter, t))
  }

  /** `GetTablesByRestaurantIdAsync`: one page of the matching tables, ordered by key, and their total count. */
  function GetTablesByRestaurantId(ctx: DataContext, restaurantId: int, filter: TableFilter): (r: Paged<seq<Table>>)
    reads ctx
    ensures var vf := MakeValidFilter(filter.pageNumber, filter.pageSize);
      r.pageNumber == vf.pageNumber && r.pageSize == vf.pageSize
    ensures r.pageNumber >= MinPageNumber && r.pageSize >= MinPageSize && |r.data| <= r.pageSize
    ensures r.totalRecords == |MatchingTables(ctx, restaurantId, filter)|
    ensures forall t :: t in r.data ==> t in MatchingTables(ctx, restaurantId, filter)
    ensures var skip := SkipCount(MakeValidFilter(filter.pageNumber, filter.pageSize));
      skip >= 0 && |r.data| == PageLength(|MatchingTables(ctx, restaurantId, filter)|, skip, r.pageSize) &&
      forall i :: 0 <= i < |r.data| ==>
        skip + i < |MatchingTables(ctx, restaurantId, filter)| &&
        r.data[i] == MatchingTables(ctx, restaurantId, filter)[skip + i]
  {
    Paginate(MatchingTables(ctx, restaurantId, filter), filter.pageNumber, filter.pageSize)
  }

  /** The tables of a restaurant are its stored tables, in key order. */
  lemma TablesOfSpec(ctx: DataContext, restaurantId: int)
    requires ctx.Valid()
    ensures forall t :: t in TablesOf(ctx, restaurantId) <==>
      t.id in ctx.tables && ctx.tables[t.id] == t && t.restaurantId == restaurantId
    ensures Increasing(TablesOf(ctx, restaurantId), (t: Table) => t.id)
  {
    var rows := Rows(ctx.tables, 1, ctx.nextId);
    var ofRestaurant := (t: Table) => t.restaurantId == restaurantId;
    forall t: Table
      ensures t in TablesOf(ctx, restaurantId) <==>
        t.id in ctx.tables && ctx.tables[t.id] == t && t.restaurantId == restaurantId
    {
      RowsMembership(ctx.tables, 1, ctx.nextId, t);
      WhereMembership(rows, ofRestaurant, t);
    }
    RowsIncreasing(ctx.tables, 1, ctx.nextId, (t: Table) => t.id);
    WhereIncreasing(rows, ofRestaurant, (t: Table) => t.id);
  }

  /** The matching tables are exactly the stored tables of the restaurant that pass every given criterion, in key order. */
  lemma MatchingTablesSpec(ctx: DataContext, restaurantId: int, filter: TableFilter)
    requires ctx.Valid()
    ensures forall t :: t in MatchingTables(ctx, restaurantId, filter) <==>
      t.id in ctx.tables && ctx.tables[t.id] == t && t.restaurantId == restaurantId && MatchesFilter(filter, t)
    ensures Increasing(MatchingTables(ctx, restaurantId, filter), (t: Table) => t.id)
  {
    var tables := TablesOf(ctx, restaurantId);
    var matches := (t: Table) => MatchesFilter(filter, t);
    TablesOfSpec(ctx, restaurantId);
    forall t: Table
      ensures t in MatchingTables(ctx, restaurantId, filter) <==>
        t.id in ctx.tables && ctx.tables[t.id] == t && t.restaurantId == restaurantId && MatchesFilter(filter, t)
    {
      WhereMembership(tables, matches, t);
    }
    WhereIncreasing(tables, matches, (t: Table) => t.id);
  }

  /** No non-cancelled booking of `tableId` meets [start, end). */
  predicate Free(bookings: map<int, Booking>, tableId: int, start: int, end: int)
  {
    !exists k :: k in bookings && Blocks(bookings[k], tableId, start, end)
  }

  /** `IsTableAvailableAsync`: always a success; true when no active booking of the table meets the window. */
  function IsTableAvailable(ctx: DataContext, tableId: int, start: int, duration: int): (r: Response<bool>)
    reads ctx
    ensures r.isSuccess && r.statusCode == OK && r.data.Some?
    ensures r.data.value <==>
      forall k :: k in ctx.bookings && ctx.bookings[k].tableId == tableId && Active(ctx.bookings[k]) ==>
        ctx.bookings[k].bookingTo <= start || start + duration <= ctx.bookings[k].bookingFrom
  {
    Success(Free(ctx.bookings, tableId, start, start + duration))
  }

  /**
   * A booking that is cancelled, or that ends by the start of the window, or
   * starts at or after its end, has no say in whether the table is free.
   */
  lemma HarmlessBookingDoesNotBlock(bookings: map<int, Booking>, k: int, b: Booking, tableId: int, start: int, end: int)
    requires !Active(b) || b.bookingTo <= start || end <= b.bookingFrom
    ensures Free(bookings[k := b], tableId, start, end) <==> Free(bookings - {k}, tableId, start, end)
  {
    var m := bookings[k := b];
    var rest := bookings - {k};
    if !Free(m, tableId, start, end) {
      var j :| j in m && Blocks(m[j], tableId, start, end);
      assert j in rest && Blocks(rest[j], tableId, start, end);
    }
    if !Free(rest, tableId, start, end) {
      var j :| j in rest && Blocks(rest[j], tableId, start, end);
      assert j in m && Blocks(m[j], tableId, start, end);
    }
  }

  /** Keys of the tables of `restaurantId` that an active booking holds during [start, end). */
  function BookedTableIds(ctx: DataContext, restaurantId: int, start: int, end: int): set<int>
    reads ctx
  {
    set k | k in ctx.bookings && ctx.bookings[k].tableId in ctx.tables &&
            ctx.tables[ctx.bookings[k].tableId].restaurantId == restaurantId &&
            Blocks(ctx.bookings[k], ctx.bookings[k].tableId, start, end)
      :: ctx.bookings[k].tableId
  }

  /**
   * `GetAvailableTablesAsync`: the restaurant's tables, less those booked
   * during [dateTime, dateTime + duration) when a time is given; the duration
   * defaults to two hours.
   */
  function GetAvailableTables(ctx: DataContext, restaurantId: int, dateTime: Option<int>, duration: Option<int>)
    : (r: Response<seq<Table>>)
    reads ctx
    ensures r.isSuccess && r.statusCode == OK && r.data.Some?
    ensures Subsequence(r.data.value, TablesOf(ctx, restaurantId))
    ensures dateTime.None? ==> r.data.value == TablesOf(ctx, restaurantId)
  {
    var tables := TablesOf(ctx, restaurantId);
    WhereIsSubsequence(tables, (t: Table) => true);
    SubsequenceReflexive(tables);
    if dateTime.None? then
      Success(tables)
    else
      var end := dateTime.value + duration.GetOr(Hours(DefaultBookingDurationHours));
      var booked := BookedTableIds(ctx, restaurantId, dateTime.value, end);
      WhereIsSubsequence(tables, (t: Table) => t.id !in booked);
      Success(Where(tables, (t: Table) => t.id !in booked))
  }

  lemma {:induction false} SubsequenceReflexive<V>(s: seq<V>)
    ensures Subsequence(s, s)
  {
    WhereIsSubsequence(s, (x: V) => true);
    WhereAll(s);
  }

  lemma {:induction false} WhereAll<V>(s: seq<V>)
    ensures Where(s, (x: V) => true) == s
  {
    if s != [] {
      WhereAll(s[1..]);
    }
  }

  /** A table of the restaurant is left out of the booked keys exactly when it is available for the window. */
  lemma NotBookedIffAvailable(ctx: DataContext, restaurantId: int, time: int, d: int, t: Table)
    requires t.id in ctx.tables && ctx.tables[t.id] == t && t.restaurantId == restaurantId
    ensures t.id !in BookedTableIds(ctx, restaurantId, time, time + d) <==>
      IsTableAvailable(ctx, t.id, time, d).data == Some(true)
  {
    var booked := BookedTableIds(ctx, restaurantId, time, time + d);
    if t.id in booked {
      var k :| k in ctx.bookings && ctx.bookings[k].tableId in ctx.tables &&
        ctx.tables[ctx.bookings[k].tableId].restaurantId == restaurantId &&
        Blocks(ctx.bookings[k], ctx.bookings[k].tableId, time, time + d) && ctx.bookings[k].tableId == t.id;
      assert !(ctx.bookings[k].bookingTo <= time || time + d <= ctx.bookings[k].bookingFrom);
    }
  }

  /**
   * With a time given, a table is listed exactly when it is a stored table of
   * the restaurant and `IsTableAvailableAsync` reports it free for the same
   * window; the list is in key order.
   */
  lemma AvailableTablesAreTheFreeOnes(ctx: DataContext, restaurantId: int, time: int, duration: Option<int>)
    requires ctx.Valid()
    ensures var r := GetAvailableTables(ctx, restaurantId, Some(time), duration);
      forall t :: t in r.data.value <==>
        t.id in ctx.tables && ctx.tables[t.id] == t && t.restaurantId == restaurantId &&
        IsTableAvailable(ctx, t.id, time, duration.GetOr(Hours(DefaultBookingDurationHours))).data == Some(true)
    ensures Increasing(GetAvailableTables(ctx, restaurantId, Some(time), duration).data.value, (t: Table) => t.id)
  {
    var tables := TablesOf(ctx, restaurantId);
    var d := duration.GetOr(Hours(DefaultBookingDurationHours));
    var booked := BookedTableIds(ctx, restaurantId, time, time + d);
    var free := (t: Table) => t.id !in booked;
    assert GetAvailableTables(ctx, restaurantId, Some(time), duration).data.value == Where(tables, free);
    TablesOfSpec(ctx, restaurantId);
    forall t: Table
      ensures t in Where(tables, free) <==>
        t.id in ctx.tables && ctx.tables[t.id] == t && t.restaurantId == restaurantId &&
        IsTableAvailable(ctx, t.id, time, d).data == Some(true)
    {
      WhereMembership(tables, free, t);
      if t in tables {
        NotBookedIffAvailable(ctx, restaurantId, time, d, t);
      }
    }
    WhereIncreasing(tables, free, (t: Table) => t.id);
  }

  /** `AddTableAsync`: a new table of an existing restaurant, `Available`. */
  method AddTable(ctx: DataContext, dto: CreateTableDto) returns (r: Response<Table>)
    requires ctx.Valid()
    modifies ctx`tables, ctx`nextId
    ensures ctx.Valid()
    ensures r.isSuccess <==> dto.restaurantId in ctx.restaurants
    ensures !r.isSuccess ==>
      r == FromError(BadRequest, RestaurantNotFound) && ctx.tables == old(ctx.tables) && ctx.nextId == old(ctx.nextId)
    ensures r.isSuccess ==>
      var t := Table(old(ctx.nextId), dto.restaurantId, dto.seats, TableStatus.Available);
      old(ctx.nextId) !in old(ctx.tables) && r == Success(t) &&
      ctx.tables == old(ctx.tables)[t.id := t] && ctx.nextId == old(ctx.nextId) + 1
  {
    if dto.restaurantId !in ctx.restaurants {
      return FromError(BadRequest, RestaurantNotFound);
    }
    var t := Table(ctx.nextId, dto.restaurantId, dto.seats, TableStatus.Available);
    ctx.tables := ctx.tables[t.id := t];
    ctx.nextId := ctx.nextId + 1;
    r := Success(t);
  }

  /** `UpdateTableAsync`: the restaurant is checked only when it changes. */
  method UpdateTable(ctx: DataContext, id: int, dto: UpdateTableDto) returns (r: Response<Table>)
    requires ctx.Valid()
    modifies ctx`tables
    ensures ctx.Valid()
    ensures id !in old(ctx.tables) ==> r == FromError(NotFound, TableNotFound)
    ensures (id in old(ctx.tables) && old(ctx.tables)[id].restaurantId != dto.restaurantId &&
             dto.restaurantId !in ctx.restaurants) ==>
      r == FromError(BadRequest, RestaurantNotFound)
    ensures (id in old(ctx.tables) &&
             (old(ctx.tables)[id].restaurantId == dto.restaurantId || dto.restaurantId in ctx.restaurants) &&
             Table(id, dto.restaurantId, dto.seats, dto.status) == old(ctx.tables)[id]) ==>
      r == FromError(BadRequest, NotUpdated)
    ensures r.isSuccess <==>
      id in old(ctx.tables) &&
      (old(ctx.tables)[id].restaurantId == dto.restaurantId || dto.restaurantId in ctx.restaurants) &&
      Table(id, dto.restaurantId, dto.seats, dto.status) != old(ctx.tables)[id]
    ensures r.isSuccess ==>
      var t := Table(id, dto.restaurantId, dto.seats, dto.status);
      r == Success(t) && ctx.tables == old(ctx.tables)[id := t]
    ensures !r.isSuccess ==> ctx.tables == old(ctx.tables)
  {
    if id !in ctx.tables {
      return FromError(NotFound, TableNotFound);
    }
    var table := ctx.tables[id];
    if table.restaurantId != dto.restaurantId && dto.restaurantId !in ctx.restaurants {
      return FromError(BadRequest, RestaurantNotFound);
    }
    var t := table.(restaurantId := dto.restaurantId, seats := dto.seats, status := dto.status);
    if t == table {
      return FromError(BadRequest, NotUpdated);
    }
    ctx.tables := ctx.tables[id := t];
    r := Success(t);
  }

  /** The bookings that survive deleting the tables in `gone` (the database cascades the delete). */
  function BookingsWithoutTables(bookings: map<int, Booking>, gone: set<int>): (m: map<int, Booking>)
    ensures forall k :: k in m <==> k in bookings && bookings[k].tableId !in gone
    ensures forall k :: k in m ==> m[k] == bookings[k]
  {
    map k | k in bookings && bookings[k].tableId !in gone :: bookings[k]
  }

  /** Dropping bookings keeps the booking invariants. */
  lemma SubmapKeepsBookingInvariants(bookings: map<int, Booking>, m: map<int, Booking>)
    requires BookingWindowsFixed(bookings) && ActiveBookingsDisjoint(bookings)
    requires forall k :: k in m ==> k in bookings && m[k] == bookings[k]
    ensures BookingWindowsFixed(m) && ActiveBookingsDisjoint(m)
  {
  }

  /**
   * Some order still refers to one of the tables in `gone`. The order–table
   * key restricts deletes, so the database refuses to delete such a table.
   */
  predicate OrdersReferTo(orders: map<int, Order>, gone: set<int>)
  {
    exists k :: k in orders && orders[k].tableId.Some? && orders[k].tableId.value in gone
  }

  /**
   * `DeleteTableAsync`: removes the table and, by cascade, its bookings. The
   * save throws, and nothing changes, while an order refers to the table.
   */
  method DeleteTable(ctx: DataContext, id: int) returns (r: Outcome<string>)
    requires ctx.Valid()
    modifies ctx`tables, ctx`bookings
    ensures ctx.Valid()
    ensures r == Returned(FromError(NotFound, TableNotFound)) <==> id !in old(ctx.tables)
    ensures r == Thrown <==> id in old(ctx.tables) && OrdersReferTo(ctx.orders, {id})
    ensures r == Returned(Success(Deleted)) <==> id in old(ctx.tables) && !OrdersReferTo(ctx.orders, {id})
    ensures r != Returned(Success(Deleted)) ==> ctx.tables == old(ctx.tables) && ctx.bookings == old(ctx.bookings)
    ensures r == Returned(Success(Deleted)) ==>
      ctx.tables == old(ctx.tables) - {id} && ctx.bookings == BookingsWithoutTables(old(ctx.bookings), {id})
  {
    if id !in ctx.tables {
      return Returned(FromError(NotFound, TableNotFound));
    }
    if OrdersReferTo(ctx.orders, {id}) {
      return Thrown;
    }
    RemoveTables(ctx, {id});
    r := Returned(Success(Deleted));
  }

  /** Removes the tables in `gone` and, by cascade, their bookings. */
  method RemoveTables(ctx: DataContext, gone: set<int>)
    requires ctx.Valid()
    modifies ctx`tables, ctx`bookings
    ensures ctx.Valid()
    ensures ctx.tables == old(ctx.tables) - gone && ctx.bookings == BookingsWithoutTables(old(ctx.bookings), gone)
  {
    var kept := BookingsWithoutTables(ctx.bookings, gone);
    SubmapKeepsBookingInvariants(ctx.bookings, kept);
    ctx.tables := ctx.tables - gone;
    ctx.bookings := kept;
  }
}
