/** The user domain service: uniqueness checks and credential hashing on creation,
    "not found" versus other lookup failures, partial update by field presence,
    existence-checked deletion, and page/limit normalisation for listing. The
    service holds no state of its own; every effect goes through the store. */
module Service {
  import opened Outcomes
  import opened Domain
  import opened Store

  // The error texts the service returns; the handler compares against UserNotFound.
  const UserNotFound: string := "user not found"
  const EmailTaken: string := "user with this email already exists"
  const UsernameTaken: string := "user with this username already exists"
  const PasswordFailed: string := "failed to process password"
  const CreateFailed: string := "failed to create user"
  const GetFailed: string := "failed to get user"
  const UpdateFailed: string := "failed to update user"
  const DeleteFailed: string := "failed to delete user"
  const ListFailed: string := "failed to list users"

  /** The public projection of a stored record. */
  function ToUserResponse(u: User): (r: UserResponse)
    ensures r.id == u.id && r.email == u.email && r.username == u.username
    ensures r.firstName == u.firstName && r.lastName == u.lastName && r.isActive == u.isActive
    ensures r.createdAt == u.createdAt && r.updatedAt == u.updatedAt
  {
    UserResponse(u.id, u.email, u.username, u.firstName, u.lastName, u.isActive, u.createdAt, u.updatedAt)
  }

  /** Two records have the same projection exactly when they differ at most in their
      password: the projection keeps every other field and forgets that one. */
  lemma ProjectionForgetsOnlyPassword(u: User, v: User)
    ensures ToUserResponse(u) == ToUserResponse(v) <==> u.(password := v.password) == v
  {
  }

  /** The error text for a failed id lookup: "not found" stays apart from every other failure. */
  function FetchError(e: StoreError): (msg: string)
    ensures msg == UserNotFound <==> e == NoDocuments
    ensures msg == GetFailed <==> e == Unavailable
  {
    match e
    case NoDocuments => UserNotFound
    case Unavailable => GetFailed
  }

  /** The record CreateUser hands to the store: the request's fields, the hasher's
      output as the password, active. The store assigns id and timestamps. */
  function NewUser(req: CreateUserRequest, hashed: string): (u: User)
    ensures u.email == req.email && u.username == req.username && u.password == hashed
    ensures u.firstName == req.firstName && u.lastName == req.lastName && u.isActive
  {
    User("", req.email, req.username, hashed, req.firstName, req.lastName, true, 0, 0)
  }

  /** The record after a partial update: each present field overwrites, each absent
      field keeps the old value, and nothing else changes. */
  function ApplyUpdate(u: User, req: UpdateUserRequest): (r: User)
    ensures r.firstName == (if req.firstName.Some? then req.firstName.value else u.firstName)
    ensures r.lastName == (if req.lastName.Some? then req.lastName.value else u.lastName)
    ensures r.isActive == (if req.isActive.Some? then req.isActive.value else u.isActive)
    ensures r.(firstName := u.firstName, lastName := u.lastName, isActive := u.isActive) == u
  {
    var a := if req.firstName.Some? then u.(firstName := req.firstName.value) else u;
    var b := if req.lastName.Some? then a.(lastName := req.lastName.value) else a;
    if req.isActive.Some? then b.(isActive := req.isActive.value) else b
  }

  /** An update with no fields writes back the record it read. */
  lemma EmptyUpdateIsIdentity(u: User)
    ensures ApplyUpdate(u, UpdateUserRequest(None, None, None)) == u
  {
  }

  /** Updating never touches the identity, the credentials or the timestamps. */
  lemma UpdateKeepsIdentity(u: User, req: UpdateUserRequest)
    ensures var r := ApplyUpdate(u, req);
      r.id == u.id && r.email == u.email && r.username == u.username && r.password == u.password
      && r.createdAt == u.createdAt && r.updatedAt == u.updatedAt
  {
  }

  /** The page number and page size ListUsers actually uses: a page below 1 becomes 1,
      a size outside 1..100 becomes 10, everything else is kept. */
  function Normalize(page: int, limit: int): (r: (int, int))
    ensures r.0 >= 1 && 1 <= r.1 <= 100
    ensures page >= 1 ==> r.0 == page
    ensures 1 <= limit <= 100 ==> r.1 == limit
    ensures r.0 == page || r.0 == 1
    ensures r.1 == limit || r.1 == 10
  {
    (if page < 1 then 1 else page, if limit < 1 || limit > 100 then 10 else limit)
  }

  /** Normalising twice is normalising once, and (0, 0) is treated as the default (1, 10). */
  lemma NormalizeIdempotent(page: int, limit: int)
    ensures Normalize(Normalize(page, limit).0, Normalize(page, limit).1) == Normalize(page, limit)
    ensures Normalize(0, 0) == Normalize(1, 10) == (1, 10)
  {
  }

  /** The number of records to skip: the start of page `page` for pages of `limit`
      records, in unbounded arithmetic. */
  function Offset(page: int, limit: int): (offset: int)
    requires page >= 1 && limit >= 1
    ensures offset >= 0
    ensures page == 1 ==> offset == 0
  {
    (page - 1) * limit
  }

  /** Consecutive pages are adjacent windows: page p+1 starts where page p ends, so
      the pages of one size tile the listing without gaps or overlaps. */
  lemma PagesAreContiguous(page: int, limit: int)
    requires page >= 1 && limit >= 1
    ensures Offset(page + 1, limit) == Offset(page, limit) + limit
  {
  }

  /** Page 2 of 10 starts after the first 10 records. */
  lemma SecondPageOffset()
    ensures Offset(Normalize(2, 10).0, Normalize(2, 10).1) == 10
  {
  }

  /** Two's-complement wrap-around of Go's 64-bit `int`. */
  function Wrap64(x: int): (r: Int64)
    ensures (r - x) % 0x1_0000_0000_0000_0000 == 0
    ensures MinInt64 <= x <= MaxInt64 ==> r == x
  {
    (x + 0x8000_0000_0000_0000) % 0x1_0000_0000_0000_0000 - 0x8000_0000_0000_0000
  }

  /** The offset as the code computes it: `(page - 1) * limit` on 64-bit ints. */
  function WrappedOffset(page: Int64, limit: Int64): (offset: Int64)
    ensures var (p, l) := Normalize(page, limit);
      (p - 1) * l <= MaxInt64 ==> offset == Offset(p, l)
  {
    var (p, l) := Normalize(page, limit);
    Wrap64((p - 1) * l)
  }

  /** A large page number overflows the 64-bit offset into a negative number. */
  lemma OffsetWrapsNegative()
    ensures WrappedOffset(0x4000_0000_0000_0001, 2) == MinInt64
    ensures Offset(Normalize(0x4000_0000_0000_0001, 2).0, 2) == 0x8000_0000_0000_0000
  {
  }

  /** For every page up to MaxInt64 / 100 + 1 the 64-bit offset is the exact one, so
      the overflow needs a page number beyond that. */
  lemma {:induction false} WrappedOffsetExactForModestPages(page: Int64, limit: Int64)
    requires page <= MaxInt64 / 100 + 1
    ensures WrappedOffset(page, limit) == Offset(Normalize(page, limit).0, Normalize(page, limit).1)
  {
    var (p, l) := Normalize(page, limit);
    assert 0 <= p - 1 <= MaxInt64 / 100;
    MulMonotone(p - 1, MaxInt64 / 100, l);
    MulMonotone(l, 100, MaxInt64 / 100);
  }

  lemma MulMonotone(a: int, b: int, c: int)
    requires 0 <= a <= b && 0 <= c
    ensures a * c <= b * c
  {
  }

  /** One projection per record, in the same order. */
  function ProjectAll(rows: seq<User>): (r: seq<UserResponse>)
    ensures |r| == |rows| && forall i :: 0 <= i < |rows| ==> r[i] == ToUserResponse(rows[i])
  {
    seq(|rows|, i requires 0 <= i < |rows| => ToUserResponse(rows[i]))
  }

  /** Replacing a record by one with the same email and username keeps both unique. */
  lemma {:induction false} ReplaceKeepsUnique(users: map<string, User>, id: string, u: User)
    requires id in users && u.email == users[id].email && u.username == users[id].username
    requires UniqueIn(users)
    ensures UniqueIn(users[id := u])
  {
    var m := users[id := u];
    forall a, b | a in m && b in m && a != b
      ensures m[a].email != m[b].email && m[a].username != m[b].username
    {
      assert Field(m[a], ByEmail) == Field(users[a], ByEmail) && Field(m[b], ByEmail) == Field(users[b], ByEmail);
      assert Field(m[a], ByUsername) == Field(users[a], ByUsername) && Field(m[b], ByUsername) == Field(users[b], ByUsername);
    }
  }

  class UserService {
    const repo: UserStore

    constructor (repo: UserStore)
      ensures this.repo == repo
    {
      this.repo := repo;
    }

    /** What CreateUser returns in the present store state. The email check comes first
        and any failed lookup, "not found" or not, counts as the value being free. */
    function CreateOutcome(req: CreateUserRequest, hash: string -> Option<string>): (r: Result<UserResponse, string>)
      reads repo
      requires repo.Valid()
      ensures r == Err(EmailTaken) <==> repo.Find(ByEmail, req.email).Ok?
      ensures r == Err(UsernameTaken) <==>
        repo.Find(ByEmail, req.email).Err? && repo.Find(ByUsername, req.username).Ok?
      ensures r == Err(PasswordFailed) <==>
        repo.Find(ByEmail, req.email).Err? && repo.Find(ByUsername, req.username).Err? && hash(req.password).None?
      ensures r.Ok? <==>
        repo.Find(ByEmail, req.email).Err? && repo.Find(ByUsername, req.username).Err?
        && hash(req.password).Some? && CreateOp !in repo.outage
      ensures r.Ok? ==>
        && r.value.id !in repo.users
        && r.value.email == req.email && r.value.username == req.username
        && r.value.firstName == req.firstName && r.value.lastName == req.lastName
        && r.value.isActive
      ensures r.Err? ==>
        r.error in {EmailTaken, UsernameTaken, PasswordFailed, CreateFailed}
    {
      if repo.Find(ByEmail, req.email).Ok? then Err(EmailTaken)
      else if repo.Find(ByUsername, req.username).Ok? then Err(UsernameTaken)
      else
        match hash(req.password)
        case None => Err(PasswordFailed)
        case Some(hashed) =>
          match repo.CreateResult(NewUser(req, hashed))
          case Err(_) => Err(CreateFailed)
          case Ok(stored) => Ok(ToUserResponse(stored))
    }

    method CreateUser(req: CreateUserRequest, hash: string -> Option<string>) returns (r: Result<UserResponse, string>)
      requires repo.Valid()
      modifies repo
      ensures repo.Valid()
      ensures r == old(CreateOutcome(req, hash))
      ensures repo.outage == old(repo.outage) && repo.clock == old(repo.clock)
      ensures r.Err? ==> unchanged(repo)
      ensures r.Ok? ==>
        && r.value.id in repo.users
        && repo.users == old(repo.users)[r.value.id := repo.users[r.value.id]]
        && repo.order == old(repo.order) + [r.value.id]
        && repo.users[r.value.id] == NewUser(req, hash(req.password).value).(
             id := r.value.id, createdAt := old(repo.clock), updatedAt := old(repo.clock))
        && r.value == ToUserResponse(repo.users[r.value.id])
      ensures old(repo.Unique()) && GetByEmailOp !in old(repo.outage) && GetByUsernameOp !in old(repo.outage)
        ==> repo.Unique()
    {
      var byEmail := repo.GetByEmail(req.email);
      if byEmail.Ok? {
        return Err(EmailTaken);
      }
      var byUsername := repo.GetByUsername(req.username);
      if byUsername.Ok? {
        return Err(UsernameTaken);
      }
      var hashed := hash(req.password);
      if hashed.None? {
        return Err(PasswordFailed);
      }
      ghost var before := repo.users;
      var user := NewUser(req, hashed.value);
      var created := repo.Create(user);
      if created.Err? {
        return Err(CreateFailed);
      }
      r := Ok(ToUserResponse(created.value));
      if old(repo.Unique()) && GetByEmailOp !in old(repo.outage) && GetByUsernameOp !in old(repo.outage) {
        assert byEmail == Err(NoDocuments) && byUsername == Err(NoDocuments);
        assert forall id :: id in before ==> before[id].email != req.email && before[id].username != req.username;
      }
    }

    /** What GetUser returns in the present store state. */
    function GetOutcome(id: string): (r: Result<UserResponse, string>)
      reads repo
      ensures r.Ok? <==> repo.Lookup(id).Ok?
      ensures r.Ok? ==> r.value == ToUserResponse(repo.users[id])
      ensures r == Err(UserNotFound) <==> repo.Lookup(id) == Err(NoDocuments)
      ensures r == Err(GetFailed) <==> repo.Lookup(id) == Err(Unavailable)
    {
      match repo.Lookup(id)
      case Err(e) => Err(FetchError(e))
      case Ok(u) => Ok(ToUserResponse(u))
    }

    method GetUser(id: string) returns (r: Result<UserResponse, string>)
      ensures r == GetOutcome(id)
    {
      var found := repo.GetByID(id);
      if found.Err? {
        return Err(FetchError(found.error));
      }
      r := Ok(ToUserResponse(found.value));
    }

    /** What UpdateUser returns in the present store state. */
    function UpdateOutcome(id: string, req: UpdateUserRequest): (r: Result<UserResponse, string>)
      reads repo
      ensures repo.Lookup(id).Err? ==> r == Err(FetchError(repo.Lookup(id).error))
      ensures r == Err(UserNotFound) <==> repo.Lookup(id) == Err(NoDocuments)
      ensures r == Err(UpdateFailed) <==> repo.Lookup(id).Ok? && UpdateOp in repo.outage
      ensures r.Ok? <==> repo.Lookup(id).Ok? && UpdateOp !in repo.outage
      ensures r.Ok? ==> r.value == ToUserResponse(ApplyUpdate(repo.users[id], req))
    {
      match repo.Lookup(id)
      case Err(e) => Err(FetchError(e))
      case Ok(u) =>
        if UpdateOp in repo.outage then Err(UpdateFailed)
        else Ok(ToUserResponse(ApplyUpdate(u, req)))
    }

    method UpdateUser(id: string, req: UpdateUserRequest) returns (r: Result<UserResponse, string>)
      requires repo.Valid()
      modifies repo
      ensures repo.Valid()
      ensures r == old(UpdateOutcome(id, req))
      ensures repo.order == old(repo.order) && repo.outage == old(repo.outage) && repo.clock == old(repo.clock)
      ensures r.Ok? ==> repo.users == old(repo.users)[id := ApplyUpdate(old(repo.users)[id], req)]
      ensures r.Err? ==> unchanged(repo)
      ensures old(repo.Unique()) ==> repo.Unique()
    {
      var found := repo.GetByID(id);
      if found.Err? {
        return Err(FetchError(found.error));
      }
      var user := found.value;
      if req.firstName.Some? {
        user := user.(firstName := req.firstName.value);
      }
      if req.lastName.Some? {
        user := user.(lastName := req.lastName.value);
      }
      if req.isActive.Some? {
        user := user.(isActive := req.isActive.value);
      }
      assert user == ApplyUpdate(found.value, req) && user.id == id;
      if repo.Unique() {
        ReplaceKeepsUnique(repo.users, id, user);
      }
      var updated := repo.Update(id, user);
      if updated.Err? {
        return Err(UpdateFailed);
      }
      r := Ok(ToUserResponse(user));
    }

    /** What DeleteUser returns in the present store state: no error, or its text. */
    function DeleteOutcome(id: string): (r: Option<string>)
      reads repo
      ensures repo.Lookup(id).Err? ==> r == Some(FetchError(repo.Lookup(id).error))
      ensures r == Some(UserNotFound) <==> repo.Lookup(id) == Err(NoDocuments)
      ensures r == Some(DeleteFailed) <==> repo.Lookup(id).Ok? && DeleteOp in repo.outage
      ensures r.None? <==> repo.Lookup(id).Ok? && DeleteOp !in repo.outage
    {
      match repo.Lookup(id)
      case Err(e) => Some(FetchError(e))
      case Ok(_) => if DeleteOp in repo.outage then Some(DeleteFailed) else None
    }

    method DeleteUser(id: string) returns (r: Option<string>)
      requires repo.Valid()
      modifies repo
      ensures repo.Valid()
      ensures r == old(DeleteOutcome(id))
      ensures repo.outage == old(repo.outage) && repo.clock == old(repo.clock)
      ensures r.None? ==> repo.users == old(repo.users) - {id} && repo.order == Without(old(repo.order), id)
      ensures r.Some? ==> unchanged(repo)
      ensures old(repo.Unique()) ==> repo.Unique()
    {
      var found := repo.GetByID(id);
      if found.Err? {
        return Some(FetchError(found.error));
      }
      var deleted := repo.Delete(id);
      if deleted.Err? {
        return Some(DeleteFailed);
      }
      r := None;
    }

    /** What ListUsers returns in the present store state: one projection per record of
        the normalised page, in store order, and the store's total. */
    function ListOutcome(page: int, limit: int): (r: Result<(seq<UserResponse>, int), string>)
      reads repo
      requires repo.Valid()
      ensures r.Err? <==> ListOp in repo.outage
      ensures r.Err? ==> r.error == ListFailed
      ensures r.Ok? ==>
        var (p, l) := Normalize(page, limit);
        var rows := repo.PageOf(Offset(p, l), l);
        && |r.value.0| == |rows| <= l
        && (forall i :: 0 <= i < |rows| ==> r.value.0[i] == ToUserResponse(rows[i]))
        && r.value.1 == |repo.order|
    {
      if ListOp in repo.outage then Err(ListFailed)
      else
        var (p, l) := Normalize(page, limit);
        var rows := repo.PageOf(Offset(p, l), l);
        Ok((ProjectAll(rows), |repo.order|))
    }

    /** Wherever `(page - 1) * limit` fits in 64 bits, the page ListOutcome fetches is the
        one at the offset the 64-bit code computes. */
    lemma ListAgreesWithWrappedOffset(page: Int64, limit: Int64)
      requires repo.Valid()
      requires (Normalize(page, limit).0 - 1) * Normalize(page, limit).1 <= MaxInt64
      ensures WrappedOffset(page, limit) >= 0
      ensures ListOutcome(page, limit).Ok? ==>
        ListOutcome(page, limit).value.0 == ProjectAll(repo.PageOf(WrappedOffset(page, limit), Normalize(page, limit).1))
    {
    }

    method ListUsers(page: int, limit: int) returns (r: Result<(seq<UserResponse>, int), string>)
      requires repo.Valid()
      ensures r == ListOutcome(page, limit)
    {
      var p, l := page, limit;
      if p < 1 {
        p := 1;
      }
      if l < 1 || l > 100 {
        l := 10;
      }
      assert (p, l) == Normalize(page, limit);
      var offset := (p - 1) * l;
      assert offset == Offset(p, l);
      var listed := repo.List(offset, l);
      if listed.Err? {
        return Err(ListFailed);
      }
      var (users, total) := listed.value;
      var responses := new UserResponse[|users|];
      for i := 0 to |users|
        invariant forall k :: 0 <= k < i ==> responses[k] == ToUserResponse(users[k])
      {
        responses[i] := ToUserResponse(users[i]);
      }
      assert responses[..] == ProjectAll(users);
      r := Ok((responses[..], total));
    }
  }
}
