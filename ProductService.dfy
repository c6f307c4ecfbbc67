/**
 * Products: a product can be added only under a category linked to its
 * restaurant; update overwrites its fields without re-checking the link.
 */
module ProductService {
  import opened Wrappers
  import opened Responses
  import opened Entities
  import opened Data

  const CategoryNotAssigned: string := "Category is not assigned to this restaurant"
  const ProductNotFound: string := "Product not found"
  const NotUpdated: string := "Product not updated"
  const Deleted: string := "Product deleted successfully"

  /** The product `dto` describes, under key `id`, created at `createdAt`. */
  function FromDto(id: int, dto: ProductDto, createdAt: int): Product
  {
    Product(id, dto.name, dto.price, dto.quantity, dto.description, dto.imageUrl, dto.restaurantId, dto.categoryId,
            createdAt)
  }

  /** `AddProductAsync`: the new product is stamped with the current time. */
  method AddProduct(ctx: DataContext, dto: ProductDto, now: int) returns (r: Response<Product>)
    requires ctx.Valid()
    modifies ctx`products, ctx`nextId
    ensures ctx.Valid()
    ensures r.isSuccess <==> RestaurantCategory(dto.restaurantId, dto.categoryId) in ctx.restaurantCategories
    ensures !r.isSuccess ==>
      r == FromError(BadRequest, CategoryNotAssigned) && ctx.products == old(ctx.products) && ctx.nextId == old(ctx.nextId)
    ensures r.isSuccess ==>
      old(ctx.nextId) !in old(ctx.products) &&
      r == Success(FromDto(old(ctx.nextId), dto, now)) &&
      ctx.products == old(ctx.products)[old(ctx.nextId) := FromDto(old(ctx.nextId), dto, now)] &&
      ctx.nextId == old(ctx.nextId) + 1
  {
    if RestaurantCategory(dto.restaurantId, dto.categoryId) !in ctx.restaurantCategories {
      return FromError(BadRequest, CategoryNotAssigned);
    }
    var product := FromDto(ctx.nextId, dto, now);
    ctx.products := ctx.products[product.id := product];
    ctx.nextId := ctx.nextId + 1;
    r := Success(product);
  }

  /**
   * `UpdateProductAsync`: the seven fields are overwritten; the link is not
   * checked again. A save that changes nothing writes no row and is answered
   * as not updated. Restaurant and category are required keys, so a save
   * that would store an id naming no row throws.
   */
  method UpdateProduct(ctx: DataContext, id: int, dto: ProductDto) returns (r: Outcome<Product>)
    requires ctx.Valid()
    modifies ctx`products
    ensures ctx.Valid()
    ensures r == Returned(FromError(NotFound, ProductNotFound)) <==> id !in old(ctx.products)
    ensures r == Returned(FromError(BadRequest, NotUpdated)) <==>
      id in old(ctx.products) && FromDto(id, dto, old(ctx.products)[id].createdAt) == old(ctx.products)[id]
    ensures r == Thrown <==>
      id in old(ctx.products) && FromDto(id, dto, old(ctx.products)[id].createdAt) != old(ctx.products)[id] &&
      (dto.restaurantId !in ctx.restaurants || dto.categoryId !in ctx.categories)
    ensures r.Returned? && r.response.isSuccess <==>
      id in old(ctx.products) && FromDto(id, dto, old(ctx.products)[id].createdAt) != old(ctx.products)[id] &&
      dto.restaurantId in ctx.restaurants && dto.categoryId in ctx.categories
    ensures !(r.Returned? && r.response.isSuccess) ==> ctx.products == old(ctx.products)
    ensures r.Returned? && r.response.isSuccess ==>
      var p := FromDto(id, dto, old(ctx.products)[id].createdAt);
      r == Returned(Success(p)) && ctx.products == old(ctx.products)[id := p]
  {
    if id !in ctx.products {
      return Returned(FromError(NotFound, ProductNotFound));
    }
    var product := ctx.products[id].(name := dto.name, price := dto.price, description := dto.description,
                                     imageUrl := dto.imageUrl, quantity := dto.quantity,
                                     restaurantId := dto.restaurantId, categoryId := dto.categoryId);
    if product == ctx.products[id] {
      return Returned(FromError(BadRequest, NotUpdated));
    }
    if dto.restaurantId !in ctx.restaurants || dto.categoryId !in ctx.categories {
      return Thrown;
    }
    ctx.products := ctx.products[id := product];
    r := Returned(Success(product));
  }

  /** `DeleteProductAsync`. */
  method DeleteProduct(ctx: DataContext, id: int) returns (r: Response<string>)
    requires ctx.Valid()
    modifies ctx`products
    ensures ctx.Valid()
    ensures r.isSuccess <==> id in old(ctx.products)
    ensures !r.isSuccess ==> r == FromError(NotFound, ProductNotFound) && ctx.products == old(ctx.products)
    ensures r.isSuccess ==> r == Success(Deleted) && ctx.products == old(ctx.products) - {id}
  {
    if id !in ctx.products {
      return FromError(NotFound, ProductNotFound);
    }
    ctx.products := ctx.products - {id};
    r := Success(Deleted);
  }
}
