/**
 * Orders: creation validated by order type, cancellation, and partial
 * update where a missing field keeps its stored value.
 */
module OrderService {
  import opened Wrappers
  import opened Responses
  import opened Entities
  import opened Text
  import opened Data
  import OrderStatus
  import OrderType

  const ContactRequired: string := "FullName and PhoneNumber are required for all orders."
  const AddressRequired: string := "DeliveryAddress is required for Delivery orders."
  const TableIdRequired: string := "TableId is required for AtTable orders."
  const InvalidType: string := "Invalid OrderType. Allowed values: Pickup, Delivery, AtTable."
  const OrderNotFound: string := "Order not found"
  const NotUpdated: string := "Order not updated"
  const AlreadyCancelled: string := "Order is already canceled"

  function TableMissing(tableId: int): string
  {
    "Table with id=" + IntToString(tableId) + " not found."
  }

  /**
   * The validation of `CreateOrderAsync`: the message of the first check
   * that fails, or `None` when the order may be stored.
   */
  function CreateOrderError(dto: CreateOrderDto, tables: map<int, Table>): (e: Option<string>)
    ensures (IsNullOrWhiteSpace(dto.fullName) || IsNullOrWhiteSpace(dto.phoneNumber)) ==> e == Some(ContactRequired)
    ensures e == None <==>
      && !IsNullOrWhiteSpace(dto.fullName) && !IsNullOrWhiteSpace(dto.phoneNumber)
      && (|| dto.orderType == OrderType.Pickup
          || (dto.orderType == OrderType.Delivery && !IsNullOrWhiteSpace(dto.deliveryAddress))
          || (dto.orderType == OrderType.AtTable && dto.tableId.Some? && dto.tableId.value in tables))
    ensures !IsNullOrWhiteSpace(dto.fullName) && !IsNullOrWhiteSpace(dto.phoneNumber) ==>
      && (dto.orderType == OrderType.Delivery && IsNullOrWhiteSpace(dto.deliveryAddress) ==> e == Some(AddressRequired))
      && (dto.orderType == OrderType.AtTable && dto.tableId.None? ==> e == Some(TableIdRequired))
      && (dto.orderType == OrderType.AtTable && dto.tableId.Some? && dto.tableId.value !in tables ==>
            e == Some(TableMissing(dto.tableId.value)))
      && (dto.orderType !in {OrderType.Pickup, OrderType.Delivery, OrderType.AtTable} ==> e == Some(InvalidType))
  {
    if IsNullOrWhiteSpace(dto.fullName) || IsNullOrWhiteSpace(dto.phoneNumber) then
      Some(ContactRequired)
    else if dto.orderType == OrderType.Pickup then
      None
    else if dto.orderType == OrderType.Delivery then
      if IsNullOrWhiteSpace(dto.deliveryAddress) then Some(AddressRequired) else None
    else if dto.orderType == OrderType.AtTable then
      if dto.tableId.None? then Some(TableIdRequired)
      else if dto.tableId.value !in tables then Some(TableMissing(dto.tableId.value))
      else None
    else
      Some(InvalidType)
  }

  /** The order a successful create stores: `Pending`, stamped `now`, the rest copied from the request. */
  function NewOrder(id: int, dto: CreateOrderDto, now: int): Order
  {
    Order(id, dto.totalAmount.GetOr(0.0), OrderStatus.Pending, now, dto.orderType,
          dto.fullName, dto.phoneNumber, dto.deliveryAddress, dto.tableId)
  }

  /** `CreateOrderAsync`. */
  method CreateOrder(ctx: DataContext, dto: CreateOrderDto, now: int) returns (r: Response<Order>)
    requires ctx.Valid()
    modifies ctx`orders, ctx`nextId
    ensures ctx.Valid()
    ensures r.isSuccess <==> CreateOrderError(dto, ctx.tables) == None
    ensures !r.isSuccess ==>
      r == FromError(BadRequest, CreateOrderError(dto, ctx.tables).value) &&
      ctx.orders == old(ctx.orders) && ctx.nextId == old(ctx.nextId)
    ensures r.isSuccess ==>
      old(ctx.nextId) !in old(ctx.orders) &&
      r == Success(NewOrder(old(ctx.nextId), dto, now)) &&
      ctx.orders == old(ctx.orders)[old(ctx.nextId) := NewOrder(old(ctx.nextId), dto, now)] &&
      ctx.nextId == old(ctx.nextId) + 1
  {
    var error := CreateOrderError(dto, ctx.tables);
    if error.Some? {
      return FromError(BadRequest, error.value);
    }
    var order := NewOrder(ctx.nextId, dto, now);
    ctx.orders := ctx.orders[order.id := order];
    ctx.nextId := ctx.nextId + 1;
    r := Success(order);
  }

  /** `CancelOrderAsync`: not idempotent. */
  method CancelOrder(ctx: DataContext, id: int) returns (r: Response<Order>)
    requires ctx.Valid()
    modifies ctx`orders
    ensures ctx.Valid()
    ensures id !in old(ctx.orders) ==> r == FromError(NotFound, OrderNotFound)
    ensures id in old(ctx.orders) && old(ctx.orders)[id].status == OrderStatus.Cancelled ==>
      r == FromError(BadRequest, AlreadyCancelled)
    ensures r.isSuccess <==> id in old(ctx.orders) && old(ctx.orders)[id].status != OrderStatus.Cancelled
    ensures r.isSuccess ==>
      var o := old(ctx.orders)[id].(status := OrderStatus.Cancelled);
      r == Success(o) && ctx.orders == old(ctx.orders)[id := o]
    ensures !r.isSuccess ==> ctx.orders == old(ctx.orders)
  {
    if id !in ctx.orders {
      return FromError(NotFound, OrderNotFound);
    }
    var order := ctx.orders[id];
    if order.status == OrderStatus.Cancelled {
      return FromError(BadRequest, AlreadyCancelled);
    }
    var cancelled := order.(status := OrderStatus.Cancelled);
    ctx.orders := ctx.orders[id := cancelled];
    r := Success(cancelled);
  }

  /** An order with the given fields of `dto` replacing its own; the others kept. */
  function Patched(o: Order, dto: UpdateOrderDto): (p: Order)
    ensures p.id == o.id && p.createdAt == o.createdAt && p.orderType == o.orderType &&
            p.deliveryAddress == o.deliveryAddress && p.tableId == o.tableId
    ensures dto.fullName.Some? ==> p.fullName == dto.fullName
    ensures dto.fullName.None? ==> p.fullName == o.fullName
    ensures dto.phoneNumber.Some? ==> p.phoneNumber == dto.phoneNumber
    ensures dto.phoneNumber.None? ==> p.phoneNumber == o.phoneNumber
    ensures p.status == dto.status.GetOr(o.status) && p.totalAmount == dto.totalAmount.GetOr(o.totalAmount)
  {
    o.(fullName := if dto.fullName.Some? then dto.fullName else o.fullName,
       phoneNumber := if dto.phoneNumber.Some? then dto.phoneNumber else o.phoneNumber,
       status := dto.status.GetOr(o.status),
       totalAmount := dto.totalAmount.GetOr(o.totalAmount))
  }

  /** An empty patch changes nothing, and applying a patch twice is applying it once. */
  lemma PatchLaws(o: Order, dto: UpdateOrderDto)
    ensures Patched(o, UpdateOrderDto(None, None, None, None)) == o
    ensures Patched(Patched(o, dto), dto) == Patched(o, dto)
  {
  }

  /** `UpdateOrderAsync`. */
  method UpdateOrder(ctx: DataContext, id: int, dto: UpdateOrderDto) returns (r: Response<Order>)
    requires ctx.Valid()
    modifies ctx`orders
    ensures ctx.Valid()
    ensures id !in old(ctx.orders) ==> r == FromError(NotFound, OrderNotFound)
    ensures id in old(ctx.orders) && Patched(old(ctx.orders)[id], dto) == old(ctx.orders)[id] ==>
      r == FromError(BadRequest, NotUpdated)
    ensures r.isSuccess <==> id in old(ctx.orders) && Patched(old(ctx.orders)[id], dto) != old(ctx.orders)[id]
    ensures !r.isSuccess ==> ctx.orders == old(ctx.orders)
    ensures r.isSuccess ==>
      r == Success(Patched(old(ctx.orders)[id], dto)) &&
      ctx.orders == old(ctx.orders)[id := Patched(old(ctx.orders)[id], dto)]
  {
    if id !in ctx.orders {
      return FromError(NotFound, OrderNotFound);
    }
    var order := Patched(ctx.orders[id], dto);
    if order == ctx.orders[id] {
      return FromError(BadRequest, NotUpdated);
    }
    ctx.orders := ctx.orders[id := order];
    r := Success(order);
  }
}
