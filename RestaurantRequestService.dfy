/**
 * Requests to list a new restaurant: a name may have at most one request
 * that is not rejected when it is created; reviewers then set the status to
 * one of the allowed values.
 */
module RestaurantRequestService {
  import opened Wrappers
  import opened Responses
  import opened Entities
  import opened Text
  import opened Data
  import RequestStatus

  const RequestExists: string := "Request with this restaurant name already exists"
  const RequestNotFound: string := "Request not found"
  const InvalidStatus: string := "Invalid status"
  const NotUpdated: string := "Status not updated"
  const Deleted: string := "Request deleted successfully"

  /** The statuses a reviewer may set; `Reviewed` is not among them. */
  predicate AllowedStatus(status: string)
  {
    status in [RequestStatus.Pending, RequestStatus.Accepted, RequestStatus.Rejected]
  }

  /** Some request for `name`, compared lower-cased, has not been rejected. */
  predicate LiveRequestFor(requests: map<int, RestaurantRequest>, name: string)
  {
    exists k :: k in requests && ToLower(requests[k].name) == ToLower(name) && requests[k].status != RequestStatus.Rejected
  }

  /** No two requests that are not rejected name the same restaurant, ignoring case. */
  ghost predicate LiveNamesUnique(requests: map<int, RestaurantRequest>)
  {
    forall i, j ::
      (i in requests && j in requests && i != j &&
       requests[i].status != RequestStatus.Rejected && requests[j].status != RequestStatus.Rejected) ==>
        ToLower(requests[i].name) != ToLower(requests[j].name)
  }

  /** The request a successful create stores: `Pending`, stamped `now`. */
  function NewRequest(id: int, dto: CreateRestaurantRequestDto, now: int): RestaurantRequest
  {
    RestaurantRequest(id, dto.name, dto.description, dto.cuisine, dto.address, dto.phone,
                      dto.ownerFullName, dto.ownerEmail, dto.ownerPhone, now, RequestStatus.Pending)
  }

  /** `CreateRequestAsync`; creating keeps live names unique. */
  method CreateRequest(ctx: DataContext, dto: CreateRestaurantRequestDto, now: int) returns (r: Response<RestaurantRequest>)
    requires ctx.Valid()
    modifies ctx`restaurantRequests, ctx`nextId
    ensures ctx.Valid()
    ensures r.isSuccess <==> !LiveRequestFor(old(ctx.restaurantRequests), dto.name)
    ensures !r.isSuccess ==>
      r == FromError(BadRequest, RequestExists) &&
      ctx.restaurantRequests == old(ctx.restaurantRequests) && ctx.nextId == old(ctx.nextId)
    ensures r.isSuccess ==>
      old(ctx.nextId) !in old(ctx.restaurantRequests) &&
      r == Success(NewRequest(old(ctx.nextId), dto, now)) &&
      ctx.restaurantRequests == old(ctx.restaurantRequests)[old(ctx.nextId) := NewRequest(old(ctx.nextId), dto, now)] &&
      ctx.nextId == old(ctx.nextId) + 1
    ensures LiveNamesUnique(old(ctx.restaurantRequests)) ==> LiveNamesUnique(ctx.restaurantRequests)
  {
    if LiveRequestFor(ctx.restaurantRequests, dto.name) {
      return FromError(BadRequest, RequestExists);
    }
    var request := NewRequest(ctx.nextId, dto, now);
    ctx.restaurantRequests := ctx.restaurantRequests[request.id := request];
    ctx.nextId := ctx.nextId + 1;
    r := Success(request);
  }

  /** A rejected request for the same name does not block a new one. */
  lemma RejectedRequestDoesNotBlock(requests: map<int, RestaurantRequest>, k: int, name: string)
    requires k in requests && requests[k].status == RequestStatus.Rejected
    ensures LiveRequestFor(requests, name) <==> LiveRequestFor(requests - {k}, name)
  {
    if LiveRequestFor(requests, name) {
      var j :| j in requests && ToLower(requests[j].name) == ToLower(name) && requests[j].status != RequestStatus.Rejected;
      assert j in requests - {k};
    }
  }

  /** `UpdateRequestStatusAsync`: any allowed status, from any status, without looking at the name. */
  method UpdateRequestStatus(ctx: DataContext, id: int, status: string) returns (r: Response<RestaurantRequest>)
    requires ctx.Valid()
    modifies ctx`restaurantRequests
    ensures ctx.Valid()
    ensures id !in old(ctx.restaurantRequests) ==> r == FromError(NotFound, RequestNotFound)
    ensures id in old(ctx.restaurantRequests) && !AllowedStatus(status) ==> r == FromError(BadRequest, InvalidStatus)
    ensures id in old(ctx.restaurantRequests) && AllowedStatus(status) && old(ctx.restaurantRequests)[id].status == status ==>
      r == FromError(BadRequest, NotUpdated)
    ensures r.isSuccess <==>
      id in old(ctx.restaurantRequests) && AllowedStatus(status) && old(ctx.restaurantRequests)[id].status != status
    ensures r.isSuccess ==>
      var q := old(ctx.restaurantRequests)[id].(status := status);
      r == Success(q) && ctx.restaurantRequests == old(ctx.restaurantRequests)[id := q]
    ensures !r.isSuccess ==> ctx.restaurantRequests == old(ctx.restaurantRequests)
  {
    if id !in ctx.restaurantRequests {
      return FromError(NotFound, RequestNotFound);
    }
    if !AllowedStatus(status) {
      return FromError(BadRequest, InvalidStatus);
    }
    if ctx.restaurantRequests[id].status == status {
      return FromError(BadRequest, NotUpdated);
    }
    var request := ctx.restaurantRequests[id].(status := status);
    ctx.restaurantRequests := ctx.restaurantRequests[id := request];
    r := Success(request);
  }

  /**
   * Moving a rejected request back to `Pending` is allowed and can leave two
   * live requests for one name: the uniqueness that create keeps, the status
   * update does not.
   */
  lemma RevivingRejectedRequestCanDuplicate()
    ensures var requests := map[
              1 := RestaurantRequest(1, "A", None, None, None, None, None, None, None, 0, RequestStatus.Rejected),
              2 := RestaurantRequest(2, "a", None, None, None, None, None, None, None, 0, RequestStatus.Pending)];
            && LiveNamesUnique(requests)
            && AllowedStatus(RequestStatus.Pending)
            && !LiveNamesUnique(requests[1 := requests[1].(status := RequestStatus.Pending)])
  {
    var requests := map[
      1 := RestaurantRequest(1, "A", None, None, None, None, None, None, None, 0, RequestStatus.Rejected),
      2 := RestaurantRequest(2, "a", None, None, None, None, None, None, None, 0, RequestStatus.Pending)];
    assert ToLower("A") == ToLower("a") == "a";
    assert RequestStatus.Rejected[0] == 'R' && RequestStatus.Pending[0] == 'P';
    var revived := requests[1 := requests[1].(status := RequestStatus.Pending)];
    assert revived[1].status != RequestStatus.Rejected && revived[2].status != RequestStatus.Rejected;
    assert ToLower(revived[1].name) == ToLower(revived[2].name);
  }

  /** `DeleteRequestAsync`. */
  method DeleteRequest(ctx: DataContext, id: int) returns (r: Response<string>)
    requires ctx.Valid()
    modifies ctx`restaurantRequests
    ensures ctx.Valid()
    ensures r.isSuccess <==> id in old(ctx.restaurantRequests)
    ensures !r.isSuccess ==>
      r == FromError(NotFound, RequestNotFound) && ctx.restaurantRequests == old(ctx.restaurantRequests)
    ensures r.isSuccess ==> r == Success(Deleted) && ctx.restaurantRequests == old(ctx.restaurantRequests) - {id}
  {
    if id !in ctx.restaurantRequests {
      return FromError(NotFound, RequestNotFound);
    }
    ctx.restaurantRequests := ctx.restaurantRequests - {id};
    r := Success(Deleted);
  }
}
