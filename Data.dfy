/**
 * The database context: one store per entity set, the restaurant–category
 * link table, and the identity counter that hands out keys. The invariants
 * the services maintain are stated here once.
 */
module Data {
  import opened Entities
  import opened Text
  import opened Overlap
  import BookingStatus

  /** A booking that still holds its table. */
  predicate Active(b: Booking)
  {
    b.status != BookingStatus.Cancelled
  }

  /** Every stored booking spans exactly the fixed booking length. */
  ghost predicate BookingWindowsFixed(bookings: map<int, Booking>)
  {
    forall k :: k in bookings ==> bookings[k].bookingTo == bookings[k].bookingFrom + Hours(BookingDurationHours)
  }

  /** No two active bookings of one table overlap. */
  ghost predicate ActiveBookingsDisjoint(bookings: map<int, Booking>)
  {
    forall i, j ::
      i in bookings && j in bookings && i != j &&
      bookings[i].tableId == bookings[j].tableId && Active(bookings[i]) && Active(bookings[j]) ==>
        !Overlaps(bookings[i].bookingFrom, bookings[i].bookingTo, bookings[j].bookingFrom, bookings[j].bookingTo)
  }

  /** No two restaurants have names equal ignoring case. */
  ghost predicate RestaurantNamesUnique(restaurants: map<int, Restaurant>)
  {
    forall i, j :: i in restaurants && j in restaurants && i != j ==>
      ToLower(restaurants[i].name) != ToLower(restaurants[j].name)
  }

  /** Category names carry no surrounding white space and are unique ignoring case. */
  ghost predicate CategoryNamesCanonical(categories: map<int, Category>)
  {
    && (forall k :: k in categories ==> Trimmed(categories[k].name))
    && (forall i, j :: i in categories && j in categories && i != j ==>
          ToLower(categories[i].name) != ToLower(categories[j].name))
  }

  /** Keys of each entity set lie below the counter and match the row's own id. */
  ghost predicate RestaurantKeys(m: map<int, Restaurant>, next: int)
  {
    forall k :: k in m ==> 1 <= k < next && m[k].id == k
  }

  ghost predicate TableKeys(m: map<int, Table>, next: int)
  {
    forall k :: k in m ==> 1 <= k < next && m[k].id == k
  }

  ghost predicate BookingKeys(m: map<int, Booking>, next: int)
  {
    forall k :: k in m ==> 1 <= k < next && m[k].id == k
  }

  ghost predicate CategoryKeys(m: map<int, Category>, next: int)
  {
    forall k :: k in m ==> 1 <= k < next && m[k].id == k
  }

  ghost predicate ProductKeys(m: map<int, Product>, next: int)
  {
    forall k :: k in m ==> 1 <= k < next && m[k].id == k
  }

  ghost predicate OrderKeys(m: map<int, Order>, next: int)
  {
    forall k :: k in m ==> 1 <= k < next && m[k].id == k
  }

  ghost predicate RequestKeys(m: map<int, RestaurantRequest>, next: int)
  {
    forall k :: k in m ==> 1 <= k < next && m[k].id == k
  }

  ghost predicate ApplicationKeys(m: map<int, JobApplication>, next: int)
  {
    forall k :: k in m ==> 1 <= k < next && m[k].id == k
  }

  class DataContext {
    var restaurants: map<int, Restaurant>
    var tables: map<int, Table>
    var bookings: map<int, Booking>
    var categories: map<int, Category>
    var restaurantCategories: set<RestaurantCategory>
    var products: map<int, Product>
    var orders: map<int, Order>
    var restaurantRequests: map<int, RestaurantRequest>
    var jobApplications: map<int, JobApplication>
    /** The next key the identity column hands out; keys are never reused. */
    var nextId: int

    ghost predicate Valid()
      reads this
    {
      && 1 <= nextId
      && RestaurantKeys(restaurants, nextId)
      && TableKeys(tables, nextId)
      && BookingKeys(bookings, nextId)
      && CategoryKeys(categories, nextId)
      && ProductKeys(products, nextId)
      && OrderKeys(orders, nextId)
      && RequestKeys(restaurantRequests, nextId)
      && ApplicationKeys(jobApplications, nextId)
      && BookingWindowsFixed(bookings)
      && ActiveBookingsDisjoint(bookings)
      && RestaurantNamesUnique(restaurants)
      && CategoryNamesCanonical(categories)
    }

    /** An empty database. */
    constructor ()
      ensures Valid()
      ensures restaurants == map[] && tables == map[] && bookings == map[] && categories == map[]
      ensures restaurantCategories == {} && products == map[] && orders == map[]
      ensures restaurantRequests == map[] && jobApplications == map[] && nextId == 1
    {
      restaurants, tables, bookings, categories := map[], map[], map[], map[];
      restaurantCategories, products, orders := {}, map[], map[];
      restaurantRequests, jobApplications, nextId := map[], map[], 1;
    }
  }
}
