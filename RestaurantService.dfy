/**
 * Restaurants: adding, updating and deleting them under case-insensitive
 * name uniqueness, linking categories to them, the menu query, and the
 * restaurant's own copy of the available-tables query.
 */
module RestaurantService {
  import opened Wrappers
  import opened Responses
  import opened Entities
  import opened Overlap
  import opened Text
  import opened Linq
  import opened Data
  import TableService

  const NameTaken: string := "Restaurant name is already taken"
  const RestaurantNotFound: string := "Restaurant not found"
  const CategoryNotFound: string := "Category not found"
  const CategoryAlreadyAdded: string := "Category already added to restaurant"
  const CategoryAdded: string := "Category added to restaurant"
  const NotUpdated: string := "Restaurant not updated"
  const Deleted: string := "Restaurant deleted successfully"

  /** Some stored restaurant other than `except` has `name`, compared lower-cased. */
  predicate NameHeld(restaurants: map<int, Restaurant>, name: string, except: Option<int>)
  {
    exists k :: k in restaurants && Some(k) != except && ToLower(restaurants[k].name) == ToLower(name)
  }

  /** The restaurant `dto` describes, under key `id`. */
  function FromDto(id: int, dto: RestaurantDto): Restaurant
  {
    Restaurant(id, dto.name, dto.description, dto.cuisine, dto.address, dto.phone, dto.imageUrl,
               dto.openingHours, dto.rating)
  }

  /** `AddRestaurantAsync`. */
  method AddRestaurant(ctx: DataContext, dto: RestaurantDto) returns (r: Response<Restaurant>)
    requires ctx.Valid()
    modifies ctx`restaurants, ctx`nextId
    ensures ctx.Valid()
    ensures r.isSuccess <==> !NameHeld(old(ctx.restaurants), dto.name, None)
    ensures !r.isSuccess ==>
      r == FromError(BadRequest, NameTaken) &&
      ctx.restaurants == old(ctx.restaurants) && ctx.nextId == old(ctx.nextId)
    ensures r.isSuccess ==>
      old(ctx.nextId) !in old(ctx.restaurants) &&
      r == Success(FromDto(old(ctx.nextId), dto)) &&
      ctx.restaurants == old(ctx.restaurants)[old(ctx.nextId) := FromDto(old(ctx.nextId), dto)] &&
      ctx.nextId == old(ctx.nextId) + 1
  {
    if NameHeld(ctx.restaurants, dto.name, None) {
      return FromError(BadRequest, NameTaken);
    }
    var restaurant := FromDto(ctx.nextId, dto);
    ctx.restaurants := ctx.restaurants[restaurant.id := restaurant];
    ctx.nextId := ctx.nextId + 1;
    r := Success(restaurant);
  }

  /** `UpdateRestaurantAsync`: the name check is skipped when the name changes only in case. */
  method UpdateRestaurant(ctx: DataContext, id: int, dto: RestaurantDto) returns (r: Response<Restaurant>)
    requires ctx.Valid()
    modifies ctx`restaurants
    ensures ctx.Valid()
    ensures id !in old(ctx.restaurants) ==> r == FromError(NotFound, RestaurantNotFound)
    ensures (id in old(ctx.restaurants) && !EqualsIgnoreCase(old(ctx.restaurants)[id].name, dto.name) &&
             NameHeld(old(ctx.restaurants), dto.name, Some(id))) ==>
      r == FromError(BadRequest, NameTaken)
    ensures (id in old(ctx.restaurants) &&
             (EqualsIgnoreCase(old(ctx.restaurants)[id].name, dto.name) || !NameHeld(old(ctx.restaurants), dto.name, Some(id))) &&
             FromDto(id, dto) == old(ctx.restaurants)[id]) ==>
      r == FromError(BadRequest, NotUpdated)
    ensures r.isSuccess <==>
      id in old(ctx.restaurants) &&
      (EqualsIgnoreCase(old(ctx.restaurants)[id].name, dto.name) || !NameHeld(old(ctx.restaurants), dto.name, Some(id))) &&
      FromDto(id, dto) != old(ctx.restaurants)[id]
    ensures r.isSuccess ==>
      r == Success(FromDto(id, dto)) && ctx.restaurants == old(ctx.restaurants)[id := FromDto(id, dto)]
    ensures !r.isSuccess ==> ctx.restaurants == old(ctx.restaurants)
  {
    if id !in ctx.restaurants {
      return FromError(NotFound, RestaurantNotFound);
    }
    var restaurant := ctx.restaurants[id];
    if !EqualsIgnoreCase(restaurant.name, dto.name) && NameHeld(ctx.restaurants, dto.name, Some(id)) {
      return FromError(BadRequest, NameTaken);
    }
    var updated := restaurant.(name := dto.name, description := dto.description, cuisine := dto.cuisine,
                               address := dto.address, phone := dto.phone, rating := dto.rating,
                               imageUrl := dto.imageUrl, openingHours := dto.openingHours);
    if updated == restaurant {
      return FromError(BadRequest, NotUpdated);
    }
    ctx.restaurants := ctx.restaurants[id := updated];
    r := Success(updated);
  }

  /** Keys of the tables of `restaurantId`. */
  function TableKeysOf(tables: map<int, Table>, restaurantId: int): (ks: set<int>)
    ensures forall k :: k in ks <==> k in tables && tables[k].restaurantId == restaurantId
  {
    set k | k in tables && tables[k].restaurantId == restaurantId
  }

  /**
   * `DeleteRestaurantAsync`: removes the restaurant and, by cascade, its
   * tables with their bookings, its products and its category links.
   */
  method DeleteRestaurant(ctx: DataContext, id: int) returns (r: Outcome<string>)
    requires ctx.Valid()
    modifies ctx`restaurants, ctx`tables, ctx`bookings, ctx`products, ctx`restaurantCategories
    ensures ctx.Valid()
    ensures r == Returned(FromError(NotFound, RestaurantNotFound)) <==> id !in old(ctx.restaurants)
    ensures r == Thrown <==>
      id in old(ctx.restaurants) && TableService.OrdersReferTo(ctx.orders, TableKeysOf(old(ctx.tables), id))
    ensures r == Returned(Success(Deleted)) <==>
      id in old(ctx.restaurants) && !TableService.OrdersReferTo(ctx.orders, TableKeysOf(old(ctx.tables), id))
    ensures r != Returned(Success(Deleted)) ==>
      ctx.restaurants == old(ctx.restaurants) && ctx.tables == old(ctx.tables) && ctx.bookings == old(ctx.bookings) &&
      ctx.products == old(ctx.products) && ctx.restaurantCategories == old(ctx.restaurantCategories)
    ensures r == Returned(Success(Deleted)) ==>
      ctx.restaurants == old(ctx.restaurants) - {id} &&
      ctx.tables == old(ctx.tables) - TableKeysOf(old(ctx.tables), id) &&
      ctx.bookings == TableService.BookingsWithoutTables(old(ctx.bookings), TableKeysOf(old(ctx.tables), id)) &&
      ctx.products == (map k | k in old(ctx.products) && old(ctx.products)[k].restaurantId != id :: old(ctx.products)[k]) &&
      ctx.restaurantCategories == (set l | l in old(ctx.restaurantCategories) && l.restaurantId != id)
  {
    if id !in ctx.restaurants {
      return Returned(FromError(NotFound, RestaurantNotFound));
    }
    if TableService.OrdersReferTo(ctx.orders, TableKeysOf(ctx.tables, id)) {
      return Thrown;
    }
    RemoveWithDependents(ctx, id);
    r := Returned(Success(Deleted));
  }

  /** Removes a restaurant with the rows the database cascades to: tables, their bookings, products and links. */
  method RemoveWithDependents(ctx: DataContext, id: int)
    requires ctx.Valid()
    modifies ctx`restaurants, ctx`tables, ctx`bookings, ctx`products, ctx`restaurantCategories
    ensures ctx.Valid()
    ensures ctx.restaurants == old(ctx.restaurants) - {id} &&
      ctx.tables == old(ctx.tables) - TableKeysOf(old(ctx.tables), id) &&
      ctx.bookings == TableService.BookingsWithoutTables(old(ctx.bookings), TableKeysOf(old(ctx.tables), id)) &&
      ctx.products == (map k | k in old(ctx.products) && old(ctx.products)[k].restaurantId != id :: old(ctx.products)[k]) &&
      ctx.restaurantCategories == (set l | l in old(ctx.restaurantCategories) && l.restaurantId != id)
  {
    TableService.RemoveTables(ctx, TableKeysOf(ctx.tables, id));
    ctx.restaurants := ctx.restaurants - {id};
    ctx.products := map k | k in ctx.products && ctx.products[k].restaurantId != id :: ctx.products[k];
    ctx.restaurantCategories := set l | l in ctx.restaurantCategories && l.restaurantId != id;
  }

  /** `AddCategoryToRestaurantAsync`. */
  method AddCategoryToRestaurant(ctx: DataContext, restaurantId: int, categoryId: int) returns (r: Response<string>)
    requires ctx.Valid()
    modifies ctx`restaurantCategories
    ensures ctx.Valid()
    ensures restaurantId !in ctx.restaurants ==> r == FromError(NotFound, RestaurantNotFound)
    ensures restaurantId in ctx.restaurants && categoryId !in ctx.categories ==> r == FromError(NotFound, CategoryNotFound)
    ensures (restaurantId in ctx.restaurants && categoryId in ctx.categories &&
             RestaurantCategory(restaurantId, categoryId) in old(ctx.restaurantCategories)) ==>
      r == FromError(BadRequest, CategoryAlreadyAdded)
    ensures r.isSuccess <==>
      restaurantId in ctx.restaurants && categoryId in ctx.categories &&
      RestaurantCategory(restaurantId, categoryId) !in old(ctx.restaurantCategories)
    ensures r.isSuccess ==>
      r == Success(CategoryAdded) &&
      ctx.restaurantCategories == old(ctx.restaurantCategories) + {RestaurantCategory(restaurantId, categoryId)}
    ensures !r.isSuccess ==> ctx.restaurantCategories == old(ctx.restaurantCategories)
  {
    if restaurantId !in ctx.restaurants {
      return FromError(NotFound, RestaurantNotFound);
    }
    if categoryId !in ctx.categories {
      return FromError(NotFound, CategoryNotFound);
    }
    if RestaurantCategory(restaurantId, categoryId) in ctx.restaurantCategories {
      return FromError(BadRequest, CategoryAlreadyAdded);
    }
    ctx.restaurantCategories := ctx.restaurantCategories + {RestaurantCategory(restaurantId, categoryId)};
    r := Success(CategoryAdded);
  }

  /** `GetMenuDto`: the linked categories and the menu products. */
  datatype Menu = Menu(categories: seq<Category>, products: seq<Product>)

  /** `GetMenuByRestaurantIdAsync`. */
  function GetMenuByRestaurantId(ctx: DataContext, restaurantId: int): (r: Response<Menu>)
    reads ctx
    ensures r.isSuccess <==> restaurantId in ctx.restaurants
    ensures !r.isSuccess ==> r == FromError(NotFound, RestaurantNotFound)
    ensures r.isSuccess ==> r.data.Some?
  {
    if restaurantId !in ctx.restaurants then
      FromError(NotFound, RestaurantNotFound)
    else
      var links := ctx.restaurantCategories;
      var categories := Where(Rows(ctx.categories, 1, ctx.nextId),
                              (c: Category) => RestaurantCategory(restaurantId, c.id) in links);
      var products := Where(Rows(ctx.products, 1, ctx.nextId),
                            (p: Product) => p.restaurantId == restaurantId && RestaurantCategory(restaurantId, p.categoryId) in links);
      Success(Menu(categories, products))
  }

  /**
   * The menu lists exactly the stored products of the restaurant whose
   * category is linked to it, and exactly the stored categories linked to it.
   */
  lemma MenuSpec(ctx: DataContext, restaurantId: int)
    requires ctx.Valid() && restaurantId in ctx.restaurants
    ensures var menu := GetMenuByRestaurantId(ctx, restaurantId).data.value;
      && (forall p :: p in menu.products <==>
            p.id in ctx.products && ctx.products[p.id] == p && p.restaurantId == restaurantId &&
            RestaurantCategory(restaurantId, p.categoryId) in ctx.restaurantCategories)
      && (forall c :: c in menu.categories <==>
            c.id in ctx.categories && ctx.categories[c.id] == c &&
            RestaurantCategory(restaurantId, c.id) in ctx.restaurantCategories)
  {
    var links := ctx.restaurantCategories;
    var isLinked := (c: Category) => RestaurantCategory(restaurantId, c.id) in links;
    var onMenu := (p: Product) => p.restaurantId == restaurantId && RestaurantCategory(restaurantId, p.categoryId) in links;
    forall p: Product
      ensures p in Where(Rows(ctx.products, 1, ctx.nextId), onMenu) <==>
        p.id in ctx.products && ctx.products[p.id] == p && onMenu(p)
    {
      RowsMembership(ctx.products, 1, ctx.nextId, p);
      WhereMembership(Rows(ctx.products, 1, ctx.nextId), onMenu, p);
    }
    forall c: Category
      ensures c in Where(Rows(ctx.categories, 1, ctx.nextId), isLinked) <==>
        c.id in ctx.categories && ctx.categories[c.id] == c && isLinked(c)
    {
      RowsMembership(ctx.categories, 1, ctx.nextId, c);
      WhereMembership(Rows(ctx.categories, 1, ctx.nextId), isLinked, c);
    }
  }

  /** `GetAvailableTablesAsync` of the restaurant service: the window is always two hours. */
  function GetAvailableTables(ctx: DataContext, restaurantId: int, dateTime: Option<int>): (r: Response<seq<Table>>)
    reads ctx
    ensures r.isSuccess && r.statusCode == OK && r.data.Some?
  {
    var tables := Where(Rows(ctx.tables, 1, ctx.nextId), (t: Table) => t.restaurantId == restaurantId);
    if dateTime.None? then
      Success(tables)
    else
      var booked := BookedTableIds(ctx, restaurantId, dateTime.value);
      Success(Where(tables, (t: Table) => t.id !in booked))
  }

  /** The tables of the restaurant with an active booking meeting the two hours from `targetStart`. */
  function BookedTableIds(ctx: DataContext, restaurantId: int, targetStart: int): set<int>
    reads ctx
  {
    var targetEnd := targetStart + Hours(2);
    set k | k in ctx.bookings && ctx.bookings[k].tableId in ctx.tables &&
            ctx.tables[ctx.bookings[k].tableId].restaurantId == restaurantId &&
            Active(ctx.bookings[k]) &&
            ctx.bookings[k].bookingFrom < targetEnd && ctx.bookings[k].bookingTo > targetStart
      :: ctx.bookings[k].tableId
  }

  /** Both services count the same tables as booked for a two-hour window. */
  lemma BookedTablesAgree(ctx: DataContext, restaurantId: int, start: int)
    ensures BookedTableIds(ctx, restaurantId, start) ==
            TableService.BookedTableIds(ctx, restaurantId, start, start + Hours(2))
  {
    var mine := BookedTableIds(ctx, restaurantId, start);
    var theirs := TableService.BookedTableIds(ctx, restaurantId, start, start + Hours(2));
    forall id | id in mine ensures id in theirs {
      var k :| k in ctx.bookings && ctx.bookings[k].tableId == id && ctx.bookings[k].tableId in ctx.tables &&
               ctx.tables[ctx.bookings[k].tableId].restaurantId == restaurantId &&
               Active(ctx.bookings[k]) &&
               ctx.bookings[k].bookingFrom < start + Hours(2) && ctx.bookings[k].bookingTo > start;
      assert TableService.Blocks(ctx.bookings[k], id, start, start + Hours(2));
    }
    forall id | id in theirs ensures id in mine {
      var k :| k in ctx.bookings && ctx.bookings[k].tableId == id && ctx.bookings[k].tableId in ctx.tables &&
               ctx.tables[ctx.bookings[k].tableId].restaurantId == restaurantId &&
               TableService.Blocks(ctx.bookings[k], id, start, start + Hours(2));
    }
  }

  /**
   * The two copies of the available-tables query agree: the restaurant's
   * answers what the table service answers for a two-hour duration, given or
   * defaulted.
   */
  lemma AvailableTablesAgree(ctx: DataContext, restaurantId: int, dateTime: Option<int>, duration: Option<int>)
    requires duration == None || duration == Some(Hours(2))
    ensures GetAvailableTables(ctx, restaurantId, dateTime) ==
            TableService.GetAvailableTables(ctx, restaurantId, dateTime, duration)
  {
    var rows := Rows(ctx.tables, 1, ctx.nextId);
    WhereExtensional(rows, (t: Table) => t.restaurantId == restaurantId,
                     (t: Table) => t.restaurantId == restaurantId);
    var tables := Where(rows, (t: Table) => t.restaurantId == restaurantId);
    assert tables == TableService.TablesOf(ctx, restaurantId);
    if dateTime.Some? {
      var start := dateTime.value;
      var booked := BookedTableIds(ctx, restaurantId, start);
      var other := TableService.BookedTableIds(ctx, restaurantId, start, start + duration.GetOr(Hours(2)));
      assert booked == other by {
        BookedTablesAgree(ctx, restaurantId, start);
      }
      WhereExtensional(tables, (t: Table) => t.id !in booked, (t: Table) => t.id !in other);
    }
  }
}
