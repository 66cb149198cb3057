/** The HTTP handlers for the five user operations: the choice of status code,
    message and envelope for every service result, and the input checks the handlers
    make before calling the service. Decoded bodies and path/query values are inputs;
    the written reply is the result. */
module Handler {
  import opened Outcomes
  import opened Domain
  import opened Store
  import opened Service
  import opened Response

  /** The `data` payload of a reply: one user, or a list of them. */
  datatype Data = One(user: UserResponse) | Many(users: seq<UserResponse>)

  type Reply = Written<Data>

  /** A `page` or `limit` query parameter after `strconv.Atoi`: absent (the handler's
      default text is used), a number, or text that does not parse. */
  datatype QueryInt = Missing | Number(n: Int64) | Malformed

  /** The integer the handler works with: the default when the parameter is absent,
      the parsed number, or 0, which is what `strconv.Atoi` returns on a syntax error. */
  function QueryValue(q: QueryInt, default: Int64): (v: Int64)
    ensures q.Missing? ==> v == default
    ensures q.Number? ==> v == q.n
    ensures q.Malformed? ==> v == 0
  {
    match q
    case Missing => default
    case Number(n) => n
    case Malformed => 0
  }

  /** The reply to an empty `id` path parameter. */
  function InvalidId(): (w: Reply)
    ensures w.status == 400 && w == Error(400, "Invalid user ID", "User ID is required")
  {
    Error(400, "Invalid user ID", "User ID is required")
  }

  /** The reply to a request body that does not decode. */
  function InvalidBody(detail: string): (w: Reply)
    ensures w.status == 400 && w == Error(400, "Invalid request body", detail)
  {
    Error(400, "Invalid request body", detail)
  }

  /** Create: any service error, conflicts included, is a 400; success is a 201. */
  function CreateReply(res: Result<UserResponse, string>): (w: Reply)
    ensures w.status == 201 <==> res.Ok?
    ensures w.status == 400 <==> res.Err?
    ensures res.Ok? ==> w == Success(201, "User created successfully", Some(One(res.value)))
    ensures res.Err? ==> w == Error(400, "Failed to create user", res.error)
  {
    match res
    case Err(e) => Error(400, "Failed to create user", e)
    case Ok(user) => Success(201, "User created successfully", Some(One(user)))
  }

  /** A failed Get, Update or Delete: 404 exactly when the error text is "user not found",
      500 with the operation's own message otherwise. */
  function FailureReply(e: string, failureMessage: string): (w: Reply)
    ensures w.status == 404 <==> e == UserNotFound
    ensures w.status == 500 <==> e != UserNotFound
    ensures e == UserNotFound ==> w == Error(404, "User not found", e)
    ensures e != UserNotFound ==> w == Error(500, failureMessage, e)
  {
    if e == UserNotFound then Error(404, "User not found", e) else Error(500, failureMessage, e)
  }

  /** Get and Update: a 200 with the user and the operation's success message, or the
      failure mapping with the operation's failure message. */
  function UserReply(res: Result<UserResponse, string>, successMessage: string, failureMessage: string): (w: Reply)
    ensures w.status == 200 <==> res.Ok?
    ensures res.Ok? ==> w == Success(200, successMessage, Some(One(res.value)))
    ensures res.Err? ==> w == FailureReply(res.error, failureMessage)
  {
    match res
    case Err(e) => FailureReply(e, failureMessage)
    case Ok(user) => Success(200, successMessage, Some(One(user)))
  }

  /** Delete: a successful reply carries no data. */
  function DeleteReply(res: Option<string>): (w: Reply)
    ensures w.status == 200 <==> res.None?
    ensures res.None? ==> w == Success(200, "User deleted successfully", None)
    ensures res.Some? ==> w == FailureReply(res.value, "Failed to delete user")
  {
    match res
    case Some(e) => FailureReply(e, "Failed to delete user")
    case None => Success(200, "User deleted successfully", None)
  }

  /** List: a service error is a 500; on success the pagination block is built from the
      raw query values, not from the normalised ones the service used. */
  function ListReply(pageQ: QueryInt, limitQ: QueryInt, res: Result<(seq<UserResponse>, int), string>): (w: Reply)
    ensures w.status == 200 <==> res.Ok?
    ensures res.Err? ==> w == Error(500, "Failed to list users", res.error)
    ensures res.Ok? ==> w == Paginated(200, "Users retrieved successfully", Many(res.value.0),
                                       QueryValue(pageQ, 1), QueryValue(limitQ, 10), res.value.1)
  {
    match res
    case Err(e) => Error(500, "Failed to list users", e)
    case Ok((users, total)) =>
      Paginated(200, "Users retrieved successfully", Many(users), QueryValue(pageQ, 1), QueryValue(limitQ, 10), total)
  }

  /** The metadata matches the page the service fetched exactly when the raw page is at
      least 1 and the raw limit lies in 1..100. */
  lemma MetadataAgreesOnlyWithinRange(pageQ: QueryInt, limitQ: QueryInt, users: seq<UserResponse>, total: int)
    ensures var meta := ListReply(pageQ, limitQ, Ok((users, total))).body.paged.pagination;
      var page, limit := QueryValue(pageQ, 1), QueryValue(limitQ, 10);
      (meta.page, meta.limit) == Normalize(page, limit) <==> page >= 1 && 1 <= limit <= 100
  {
  }

  /** `?page=0&limit=500` over 25 records: the service fetches page 1 of 10 (3 pages in
      all), while the metadata reports page 0, limit 500 and a single page. */
  lemma {:induction false} MetadataDisagreesWithFetchedPage(users: seq<UserResponse>)
    ensures Normalize(0, 500) == (1, 10) && CeilDiv(25, 10) == 3
    ensures ListReply(Number(0), Number(500), Ok((users, 25))).body.paged.pagination
         == Pagination(0, 500, 25, Some(1))
  {
    CeilDivFormula(25, 10);
    CeilDivFormula(25, 500);
  }

  /** Absent parameters mean page 1 of 10; unparsable ones mean 0, whose limit has no
      page count. */
  lemma QueryDefaults(users: seq<UserResponse>, total: int)
    ensures ListReply(Missing, Missing, Ok((users, total))).body.paged.pagination.page == 1
    ensures ListReply(Missing, Missing, Ok((users, total))).body.paged.pagination.limit == 10
    ensures ListReply(Malformed, Malformed, Ok((users, total))).body.paged.pagination
         == Pagination(0, 0, total, None)
  {
  }

  class UserHandler {
    const service: UserService

    constructor (service: UserService)
      ensures this.service == service
    {
      this.service := service;
    }

    /** POST /users. `body` is the decoded request or the decoding error. */
    method CreateUser(body: Result<CreateUserRequest, string>, hash: string -> Option<string>) returns (w: Reply)
      requires service.repo.Valid()
      modifies service.repo
      ensures service.repo.Valid()
      ensures body.Err? ==> w == InvalidBody(body.error) && unchanged(service.repo)
      ensures body.Ok? ==> w == CreateReply(old(service.CreateOutcome(body.value, hash)))
      ensures service.repo.outage == old(service.repo.outage) && service.repo.clock == old(service.repo.clock)
      ensures w.status == 201 ==>
        && body.Ok? && w.body.Plain? && w.body.response.data.Some? && w.body.response.data.value.One?
        && var id := w.body.response.data.value.user.id;
           && id !in old(service.repo.users) && id in service.repo.users
           && service.repo.users == old(service.repo.users)[id := service.repo.users[id]]
           && service.repo.order == old(service.repo.order) + [id]
           && service.repo.users[id] == NewUser(body.value, hash(body.value.password).value).(
                id := id, createdAt := old(service.repo.clock), updatedAt := old(service.repo.clock))
           && w.body.response.data.value.user == ToUserResponse(service.repo.users[id])
      ensures w.status != 201 ==> unchanged(service.repo)
    {
      if body.Err? {
        return InvalidBody(body.error);
      }
      var res := service.CreateUser(body.value, hash);
      w := CreateReply(res);
    }

    /** GET /users/{id}. */
    method GetUser(id: string) returns (w: Reply)
      requires service.repo.Valid()
      ensures id == "" ==> w == InvalidId()
      ensures id != "" ==> w == UserReply(service.GetOutcome(id), "User retrieved successfully", "Failed to get user")
    {
      if id == "" {
        return InvalidId();
      }
      var res := service.GetUser(id);
      w := UserReply(res, "User retrieved successfully", "Failed to get user");
    }

    /** PUT /users/{id}. The id is checked before the body is decoded. */
    method UpdateUser(id: string, body: Result<UpdateUserRequest, string>) returns (w: Reply)
      requires service.repo.Valid()
      modifies service.repo
      ensures service.repo.Valid()
      ensures id == "" ==> w == InvalidId() && unchanged(service.repo)
      ensures id != "" && body.Err? ==> w == InvalidBody(body.error) && unchanged(service.repo)
      ensures id != "" && body.Ok? ==>
        w == UserReply(old(service.UpdateOutcome(id, body.value)), "User updated successfully", "Failed to update user")
      ensures service.repo.order == old(service.repo.order)
      ensures service.repo.outage == old(service.repo.outage) && service.repo.clock == old(service.repo.clock)
      ensures w.status == 200 ==>
        && id != "" && body.Ok? && id in old(service.repo.users)
        && service.repo.users == old(service.repo.users)[id := ApplyUpdate(old(service.repo.users)[id], body.value)]
      ensures w.status != 200 ==> unchanged(service.repo)
    {
      if id == "" {
        return InvalidId();
      }
      if body.Err? {
        return InvalidBody(body.error);
      }
      var res := service.UpdateUser(id, body.value);
      w := UserReply(res, "User updated successfully", "Failed to update user");
    }

    /** DELETE /users/{id}. */
    method DeleteUser(id: string) returns (w: Reply)
      requires service.repo.Valid()
      modifies service.repo
      ensures service.repo.Valid()
      ensures id == "" ==> w == InvalidId() && unchanged(service.repo)
      ensures id != "" ==> w == DeleteReply(old(service.DeleteOutcome(id)))
      ensures w.status == 200 ==>
        && service.repo.users == old(service.repo.users) - {id}
        && service.repo.order == Without(old(service.repo.order), id)
      ensures service.repo.outage == old(service.repo.outage) && service.repo.clock == old(service.repo.clock)
      ensures w.status != 200 ==> unchanged(service.repo)
    {
      if id == "" {
        return InvalidId();
      }
      var res := service.DeleteUser(id);
      w := DeleteReply(res);
    }

    /** GET /users?page=..&limit=.. */
    method ListUsers(pageQ: QueryInt, limitQ: QueryInt) returns (w: Reply)
      requires service.repo.Valid()
      ensures w == ListReply(pageQ, limitQ, service.ListOutcome(QueryValue(pageQ, 1), QueryValue(limitQ, 10)))
    {
      var page := QueryValue(pageQ, 1);
      var limit := QueryValue(limitQ, 10);
      var res := service.ListUsers(page, limit);
      w := ListReply(pageQ, limitQ, res);
    }
  }
}
