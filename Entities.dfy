/**
 * The stored entities and the request DTOs the services read. Times are
 * minutes; `decimal` and `double` amounts are exact reals; `Id` is the row's
 * key in its store.
 */
module Entities {
  import opened Wrappers

  datatype Restaurant = Restaurant(
    id: int, name: string, description: Option<string>, cuisine: Option<string>,
    address: Option<string>, phone: Option<string>, imageUrl: Option<string>,
    openingHours: Option<string>, rating: real)

  datatype Table = Table(id: int, restaurantId: int, seats: int, status: string)

  /** A reservation of `tableId` for [bookingFrom, bookingTo). */
  datatype Booking = Booking(
    id: int, fullName: string, phoneNumber: string, tableId: int,
    bookingFrom: int, bookingTo: int, guests: int, status: string)

  datatype Category = Category(id: int, name: string, description: Option<string>, imageUrl: Option<string>)

  /** A row of the restaurant–category link table. */
  datatype RestaurantCategory = RestaurantCategory(restaurantId: int, categoryId: int)

  datatype Product = Product(
    id: int, name: string, price: real, quantity: int, description: Option<string>,
    imageUrl: Option<string>, restaurantId: int, categoryId: int, createdAt: int)

  datatype Order = Order(
    id: int, totalAmount: real, status: string, createdAt: int, orderType: string,
    fullName: Option<string>, phoneNumber: Option<string>, deliveryAddress: Option<string>,
    tableId: Option<int>)

  datatype RestaurantRequest = RestaurantRequest(
    id: int, name: string, description: Option<string>, cuisine: Option<string>,
    address: Option<string>, phone: Option<string>, ownerFullName: Option<string>,
    ownerEmail: Option<string>, ownerPhone: Option<string>, createdAt: int, status: string)

  datatype JobApplication = JobApplication(
    id: int, firstName: string, lastName: string, email: string, phone: string,
    restaurantName: Option<string>, address: Option<string>, desiredPosition: string,
    workExperience: Option<string>, motivationLetter: Option<string>, resumeUrl: Option<string>,
    createdAt: int, status: string)

  // Request bodies

  datatype CreateTableDto = CreateTableDto(restaurantId: int, seats: int)

  datatype UpdateTableDto = UpdateTableDto(seats: int, restaurantId: int, status: string)

  /** A booking request for the fixed window starting at `bookingTime`. */
  datatype CreateBookingDto = CreateBookingDto(
    tableId: int, fullName: string, phoneNumber: string, bookingTime: int, guests: int)

  datatype UpdateBookingDto = UpdateBookingDto(
    bookingTime: int, fullName: string, phoneNumber: string, guests: int, status: string)

  /** The body of both `CreateRestaurantDto` and `UpdateRestaurantDto`. */
  datatype RestaurantDto = RestaurantDto(
    name: string, description: Option<string>, cuisine: Option<string>, address: Option<string>,
    phone: Option<string>, imageUrl: Option<string>, rating: real, openingHours: Option<string>)

  /** The body of both `CreateCategoryDto` and `UpdateCategoryDto`. */
  datatype CategoryDto = CategoryDto(name: string, description: Option<string>, imageUrl: Option<string>)

  /** The body of both `CreateProductDto` and `UpdateProductDto`. */
  datatype ProductDto = ProductDto(
    name: string, price: real, quantity: int, description: Option<string>,
    imageUrl: Option<string>, restaurantId: int, categoryId: int)

  datatype CreateOrderDto = CreateOrderDto(
    orderType: string, fullName: Option<string>, phoneNumber: Option<string>,
    deliveryAddress: Option<string>, tableId: Option<int>, totalAmount: Option<real>)

  datatype UpdateOrderDto = UpdateOrderDto(
    fullName: Option<string>, phoneNumber: Option<string>, status: Option<string>,
    totalAmount: Option<real>)

  datatype CreateRestaurantRequestDto = CreateRestaurantRequestDto(
    name: string, description: Option<string>, cuisine: Option<string>, address: Option<string>,
    phone: Option<string>, ownerFullName: Option<string>, ownerEmail: Option<string>,
    ownerPhone: Option<string>)

  datatype CreateJobApplicationDto = CreateJobApplicationDto(
    firstName: string, lastName: string, restaurantName: Option<string>, email: string,
    phone: string, address: Option<string>, desiredPosition: string,
    workExperience: Option<string>, motivationLetter: Option<string>, resumeUrl: Option<string>)
}
