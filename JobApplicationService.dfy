/** Job applications: created `Pending`, then set by reviewers to an allowed status. */
module JobApplicationService {
  import opened Wrappers
  import opened Responses
  import opened Entities
  import opened Data
  import RequestStatus
  import RestaurantRequestService

  const ApplicationNotFound: string := "Application not found"
  const InvalidStatus: string := "Invalid status"
  const NotUpdated: string := "Status not updated"
  const Deleted: string := "Application deleted successfully"

  /** The application a create stores: `Pending` whatever was sent, stamped `now`. */
  function NewApplication(id: int, dto: CreateJobApplicationDto, now: int): JobApplication
  {
    JobApplication(id, dto.firstName, dto.lastName, dto.email, dto.phone, dto.restaurantName, dto.address,
                   dto.desiredPosition, dto.workExperience, dto.motivationLetter, dto.resumeUrl, now,
                   RequestStatus.Pending)
  }

  /** `CreateApplicationAsync`: never refused. */
  method CreateApplication(ctx: DataContext, dto: CreateJobApplicationDto, now: int) returns (r: Response<JobApplication>)
    requires ctx.Valid()
    modifies ctx`jobApplications, ctx`nextId
    ensures ctx.Valid()
    ensures old(ctx.nextId) !in old(ctx.jobApplications)
    ensures r == Success(NewApplication(old(ctx.nextId), dto, now))
    ensures ctx.jobApplications == old(ctx.jobApplications)[old(ctx.nextId) := NewApplication(old(ctx.nextId), dto, now)]
    ensures ctx.nextId == old(ctx.nextId) + 1
  {
    var application := NewApplication(ctx.nextId, dto, now);
    ctx.jobApplications := ctx.jobApplications[application.id := application];
    ctx.nextId := ctx.nextId + 1;
    r := Success(application);
  }

  /** `UpdateApplicationStatusAsync`: the same allowed statuses as restaurant requests. */
  method UpdateApplicationStatus(ctx: DataContext, id: int, status: string) returns (r: Response<JobApplication>)
    requires ctx.Valid()
    modifies ctx`jobApplications
    ensures ctx.Valid()
    ensures id !in old(ctx.jobApplications) ==> r == FromError(NotFound, ApplicationNotFound)
    ensures id in old(ctx.jobApplications) && !RestaurantRequestService.AllowedStatus(status) ==>
      r == FromError(BadRequest, InvalidStatus)
    ensures (id in old(ctx.jobApplications) && RestaurantRequestService.AllowedStatus(status) &&
             old(ctx.jobApplications)[id].status == status) ==>
      r == FromError(BadRequest, NotUpdated)
    ensures r.isSuccess <==>
      id in old(ctx.jobApplications) && RestaurantRequestService.AllowedStatus(status) &&
      old(ctx.jobApplications)[id].status != status
    ensures r.isSuccess ==>
      var a := old(ctx.jobApplications)[id].(status := status);
      r == Success(a) && ctx.jobApplications == old(ctx.jobApplications)[id := a]
    ensures !r.isSuccess ==> ctx.jobApplications == old(ctx.jobApplications)
  {
    if id !in ctx.jobApplications {
      return FromError(NotFound, ApplicationNotFound);
    }
    if !RestaurantRequestService.AllowedStatus(status) {
      return FromError(BadRequest, InvalidStatus);
    }
    if ctx.jobApplications[id].status == status {
      return FromError(BadRequest, NotUpdated);
    }
    var application := ctx.jobApplications[id].(status := status);
    ctx.jobApplications := ctx.jobApplications[id := application];
    r := Success(application);
  }

  /** `DeleteApplicationAsync`. */
  method DeleteApplication(ctx: DataContext, id: int) returns (r: Response<string>)
    requires ctx.Valid()
    modifies ctx`jobApplications
    ensures ctx.Valid()
    ensures r.isSuccess <==> id in old(ctx.jobApplications)
    ensures !r.isSuccess ==>
      r == FromError(NotFound, ApplicationNotFound) && ctx.jobApplications == old(ctx.jobApplications)
    ensures r.isSuccess ==> r == Success(Deleted) && ctx.jobApplications == old(ctx.jobApplications) - {id}
  {
    if id !in ctx.jobApplications {
      return FromError(NotFound, ApplicationNotFound);
    }
    ctx.jobApplications := ctx.jobApplications - {id};
    r := Success(Deleted);
  }
}
