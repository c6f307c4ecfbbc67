/** The status and type strings the services compare against. */

module BookingStatus {
  const Pending: string := "Pending"
  const Confirmed: string := "Confirmed"
  const Cancelled: string := "Cancelled"
}

module RequestStatus {
  const Pending: string := "Pending"
  const Reviewed: string := "Reviewed"
  const Accepted: string := "Accepted"
  const Rejected: string := "Rejected"
}

/** Values of `OrderStatus`, `OrderType` and `TableStatus` as their names spell them. */
module OrderStatus {
  const Pending: string := "Pending"
  const Cancelled: string := "Cancelled"
}

module OrderType {
  const Pickup: string := "Pickup"
  const Delivery: string := "Delivery"
  const AtTable: string := "AtTable"
}

module TableStatus {
  const Available: string := "Available"
}
