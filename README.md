# User service model

A Dafny model of the decision logic of a small user-management HTTP backend. The backend is written in Go. The model covers three layers:

- **The user domain service** (`internal/service/user_service.go`). It creates, fetches, updates, deletes and lists user records through a user repository:
  - CreateUser checks that the email and the username are unused, stores the password hasher's output and marks the user active.
  - GetUser, UpdateUser and DeleteUser keep "not found" apart from every other store failure.
  - UpdateUser applies only the fields present in the request.
  - ListUsers normalises `page`/`limit` and computes the offset.
  - Every user it returns goes through the public projection, which has no password.
- **The response envelopes** (`pkg/response/response.go`): the success, error and paginated JSON shapes, and `total_pages` as a ceiling division.
- **The HTTP handlers** (`internal/handler/user_handler.go`): the status code, message and envelope for every service result, and the empty-id, body-decoding and query-parameter handling in front of the service.

Files and modules:

| file | module | contents |
|---|---|---|
| outcomes.dfy | `Outcomes` | `Option` (nil pointers) and `Result` (Go's `(value, error)`) |
| domain.dfy | `Domain` | `User`, `UserResponse`, `CreateUserRequest`, `UpdateUserRequest`, `Int64` |
| store.dfy | `Store` | class `UserStore`, an in-memory repository (see below) |
| user_service.dfy | `Service` | class `UserService`, its pure outcome functions, and the projection, update, normalisation and offset functions |
| response.dfy | `Response` | the envelope datatypes, `CeilDiv`, `TotalPages`, `Success`, `Error`, `Paginated` |
| user_handler.dfy | `Handler` | the reply decision functions and class `UserHandler` |
| scenarios.dfy | `Scenarios` | client programs: a user's life cycle, create-then-get, and a duplicate let in by a failed lookup |

The repository (`domain.UserRepository` and its MongoDB implementation) is not part of this model. It is replaced by `Store.UserStore`, which has:

- the records as a `map` keyed by id text;
- the natural order as a `seq`, which `List` pages through and which email/username lookups search first-match;
- an id counter rendered in hexadecimal by the injective `Hex`;
- a clock that stamps new records;
- a set `outage` of the store operations that currently fail with a non-"not found" error. This makes the "other failure" paths reachable while keeping the model deterministic.

`Store.UserStore.Valid()` ties these fields together.

Each service operation has two parts:

- a pure function (`CreateOutcome`, `GetOutcome`, `UpdateOutcome`, `DeleteOutcome`, `ListOutcome`) that gives its result in the current store state and states that result's properties;
- a method that does the work step by step through the store, and whose `ensures` give its result as the outcome function in the old state and its new store state.

Each handler method's reply is a decision function (`CreateReply`, `UserReply`, ...) applied to that outcome.

Where the design description and the code disagree, the model follows the code:

- UpdateUser answers 500, not 400, for a failure other than "not found". CreateUser answers 400 for every error, conflicts included, as described.
- The stored password is whatever the hasher returns. The code itself does not ensure that it is non-empty or differs from the plaintext, so the model claims neither.

## Model

| member | source | states |
|---|---|---|
| `Service.ToUserResponse` | internal/service/user_service.go:141-152 | the projection copies id, email, username, both names, the active flag and both timestamps |
| `Service.ProjectionForgetsOnlyPassword` | internal/service/user_service.go:141-152 | two records have the same projection exactly when they differ at most in the password, so the response keeps every other field and never the password |
| `Service.FetchError` | internal/service/user_service.go:60-67 | a failed id lookup gives "user not found" exactly for the not-found sentinel and "failed to get user" exactly for any other failure |
| `Service.NewUser` | internal/service/user_service.go:42-49 | the record to create has the request's email, username and names, the hasher's output as its password, and is active |
| `Service.ApplyUpdate` | internal/service/user_service.go:82-91 | each present field overwrites, each absent field keeps its value, and no other field changes |
| `Service.EmptyUpdateIsIdentity` | internal/service/user_service.go:83-91 | an update with no fields gives back the record unchanged |
| `Service.UpdateKeepsIdentity` | internal/service/user_service.go:83-93 | an update never changes id, email, username, password or timestamps |
| `Service.Normalize` | internal/service/user_service.go:119-124 | the page used is at least 1 and the limit in 1..100; a page of at least 1 and a limit in range are kept; otherwise they become 1 and 10 |
| `Service.NormalizeIdempotent` | internal/service/user_service.go:119-124 | normalising twice is normalising once, and page 0 with limit 0 is treated exactly like page 1 with limit 10 |
| `Service.Offset` | internal/service/user_service.go:126 | the offset of a normalised page is never negative, and page 1 starts at 0 |
| `Service.PagesAreContiguous` | internal/service/user_service.go:126 | page p+1 starts exactly `limit` records after page p |
| `Service.SecondPageOffset` | internal/service/user_service.go:126 | page 2 with limit 10 starts at offset 10 |
| `Service.WrappedOffset` | internal/service/user_service.go:126 | the offset on 64-bit ints agrees with the exact offset whenever the product does not exceed the int64 maximum |
| `Service.OffsetWrapsNegative` | internal/service/user_service.go:126 | page 4611686018427387905 with limit 2 gives the 64-bit offset -9223372036854775808 instead of 9223372036854775808 |
| `Service.WrappedOffsetExactForModestPages` | internal/service/user_service.go:119-126 | for every page up to 92233720368547759 the 64-bit offset is the exact one |
| `Service.ProjectAll` | internal/service/user_service.go:133-136 | one projection per record, same length, same order |
| `Service.ReplaceKeepsUnique` | internal/service/user_service.go:83-93 | writing back a record with the same email and username keeps emails and usernames unique |
| `Service.UserService.CreateOutcome` | internal/service/user_service.go:25-57 | "email already exists" exactly when the email lookup succeeds, whatever the username; "username already exists" exactly when the email lookup fails and the username lookup succeeds; a lookup error of either kind counts as free; "failed to process password" exactly when both are free and hashing fails; success exactly when all that passes and the store accepts; on success an id not yet stored and the request's fields, active |
| `Service.UserService.CreateUser` | internal/service/user_service.go:25-57 | returns `CreateOutcome` in the old state; on error the store is unchanged; on success exactly one record is added, under a fresh id appended to the natural order, holding the request's fields, the hasher's output as password, active, and the returned response is its projection; if both lookups could run, emails and usernames stay unique |
| `Service.UserService.GetOutcome` | internal/service/user_service.go:59-70 | the projection of the stored record when the lookup succeeds, "user not found" exactly when the id is absent, "failed to get user" exactly on another store failure |
| `Service.UserService.GetUser` | internal/service/user_service.go:59-70 | returns `GetOutcome` and changes nothing |
| `Service.UserService.UpdateOutcome` | internal/service/user_service.go:72-99 | the lookup errors as for GetUser; "failed to update user" exactly when the lookup succeeds and the write fails; otherwise the projection of the merged record |
| `Service.UserService.UpdateUser` | internal/service/user_service.go:72-99 | returns `UpdateOutcome` in the old state; on success only that record changes, to `ApplyUpdate` of its old value; on error nothing changes; uniqueness is preserved |
| `Service.UserService.DeleteOutcome` | internal/service/user_service.go:101-116 | "user not found" exactly for an absent id, "failed to get user" on another lookup failure, "failed to delete user" exactly when the record exists and the delete fails, no error otherwise |
| `Service.UserService.DeleteUser` | internal/service/user_service.go:101-116 | returns `DeleteOutcome` in the old state; on success exactly that record leaves the map and the natural order, and all others stay; on error nothing changes; uniqueness is preserved |
| `Service.UserService.ListOutcome` | internal/service/user_service.go:118-139 | "failed to list users" exactly when the store's list fails; otherwise one projection per record of the normalised page, in store order, at most `limit` of them, and as total the number of stored records |
| `Service.UserService.ListAgreesWithWrappedOffset` | internal/service/user_service.go:119-127 | whenever `(page-1)*limit` of the normalised values fits in 64 bits, the 64-bit offset is not negative and `ListOutcome` returns the page at exactly that offset |
| `Service.UserService.ListUsers` | internal/service/user_service.go:118-139 | the loop over the fetched records produces `ListOutcome`; the store is called with the normalised limit, in 1..100, and the exact (corrected) offset, which is never negative |
| `Response.CeilDiv` | pkg/response/response.go:47 | the result is the ceiling of total / limit for either sign of a non-zero limit: (q-1)·limit < total ≤ q·limit for a positive limit, reversed for a negative one |
| `Response.CeilDivFormula` | pkg/response/response.go:47 | for a positive limit, the page count equals `(total + limit - 1) / limit` |
| `Response.ExactPages` | pkg/response/response.go:47 | when the limit divides the total, the page count is exactly total / limit |
| `Response.NoRecordsNoPages` | pkg/response/response.go:47 | a total of 0 gives 0 pages for every non-zero limit |
| `Response.TotalPages` | pkg/response/response.go:47 | a page count exists exactly when the limit is non-zero, and it is the ceiling division |
| `Response.Success` | pkg/response/response.go:30-36 | success set, the given status, message and data, empty error |
| `Response.Error` | pkg/response/response.go:38-44 | success cleared, the given status, message and error detail, no data |
| `Response.Paginated` | pkg/response/response.go:46-60 | always a success; echoes page, limit and total as passed; total pages is the ceiling division |
| `Handler.QueryValue` | internal/handler/user_handler.go:166-167 | an absent parameter takes the default, a number is used as parsed, unparsable text becomes 0 |
| `Handler.InvalidId` | internal/handler/user_handler.go:67-70 | an empty id is answered 400 "Invalid user ID" / "User ID is required" |
| `Handler.InvalidBody` | internal/handler/user_handler.go:39-43 | an undecodable body is answered 400 "Invalid request body" with the decoding error as detail and no data |
| `Handler.CreateReply` | internal/handler/user_handler.go:45-52 | 201 "User created successfully" with the user exactly on success, 400 "Failed to create user" exactly on any error, conflicts included |
| `Handler.FailureReply` | internal/handler/user_handler.go:73-80 | 404 exactly when the error text is "user not found", 500 with the operation's own message for every other error |
| `Handler.UserReply` | internal/handler/user_handler.go:72-83 | 200 with the user and the operation's success message exactly on success, the failure mapping with the operation's failure message otherwise; Get uses it with "User retrieved successfully" / "Failed to get user", Update (lines 112-123) with "User updated successfully" / "Failed to update user" |
| `Handler.DeleteReply` | internal/handler/user_handler.go:142-152 | 200 "User deleted successfully" with no data exactly on success, the failure mapping with "Failed to delete user" otherwise |
| `Handler.ListReply` | internal/handler/user_handler.go:169-176 | 500 "Failed to list users" exactly on error; otherwise 200 with the users and pagination built from the raw, un-normalised page and limit |
| `Handler.MetadataAgreesOnlyWithinRange` | internal/handler/user_handler.go:166-176 | the pagination's page and limit equal those the service used exactly when the raw page is at least 1 and the raw limit within 1..100 |
| `Handler.MetadataDisagreesWithFetchedPage` | internal/handler/user_handler.go:166-176 | with `page=0&limit=500` over 25 records the service fetches page 1 of 10 (3 pages), but the metadata reports page 0, limit 500 and 1 page |
| `Handler.QueryDefaults` | internal/handler/user_handler.go:166-167 | absent parameters report page 1 and limit 10; unparsable ones report 0 and 0, with no page count |
| `Handler.UserHandler.CreateUser` | internal/handler/user_handler.go:37-53 | an undecodable body is a 400 and the service is not called; otherwise the reply is `CreateReply` of the service's outcome; a 201 means exactly one record was added under the returned id, which was not stored before and is appended to the natural order, holding the request's fields and the hasher's output, and the reply's user is its projection; any non-201 leaves the store unchanged |
| `Handler.UserHandler.GetUser` | internal/handler/user_handler.go:65-84 | an empty id is a 400 without a lookup; otherwise `UserReply` of the service's outcome with the Get texts |
| `Handler.UserHandler.UpdateUser` | internal/handler/user_handler.go:98-124 | the id is checked before the body; either failing is a 400 and the store is unchanged; otherwise `UserReply` of the service's outcome with the Update texts; a 200 means the stored record became `ApplyUpdate` of its old value and nothing else changed; the natural order never changes; any non-200 leaves the store unchanged |
| `Handler.UserHandler.DeleteUser` | internal/handler/user_handler.go:135-153 | an empty id is a 400 and the store is unchanged; otherwise `DeleteReply` of the service's outcome; a 200 means exactly that record was removed from the map and from the natural order; any other status leaves the store unchanged |
| `Handler.UserHandler.ListUsers` | internal/handler/user_handler.go:165-177 | the service gets the raw parsed values; the reply is `ListReply` of its outcome with those same raw values |
| `Scenarios.CreateThenGet` | internal/service/user_service.go:25-70 | a user read back right after its creation has the projection CreateUser returned |

## Left out

- Password hashing: bcrypt is a salted foreign library. It is a function parameter that may fail (`None`). No determinism, injectivity or difference from the plaintext is claimed.
- The MongoDB repository: `ErrNoDocuments` becomes `NoDocuments`, and any other driver failure becomes `Unavailable`, switched on per operation through `outage`.
- The 24-character ObjectID is not modelled: its timestamp, random and counter parts, and its `.Hex()` layout. Ids come from a counter rendered in hexadecimal without padding.
- Timestamps are a store clock reading. Create stamps both timestamps; Update writes the record exactly as given and does not refresh `updatedAt`.
- Records are values, not shared `*domain.User` pointers, so aliasing between the service and the store is not modelled.
- Concurrency: the check-then-act windows in CreateUser and DeleteUser, and last-writer-wins updates. Operations run one at a time.
- Logging calls have no effect on results.
- Gin plumbing: `ShouldBindJSON`, `c.Param` and `c.DefaultQuery` are not modelled. Their outputs are inputs here: a decoded body or an error text, an id string, and a `QueryInt`.
- The binding tags' validation of request fields is in `internal/domain`, which is not part of this model.
- `strconv.Atoi` is not modelled as text parsing. A parameter is `Missing`, `Number(n)` with n in int64 range, or `Malformed` (which gives 0). A value out of range, which Atoi clamps, is the clamped `Number`.
- `Service.UserService.ListUsers` and `Service.UserService.ListOutcome` compute the exact offset `Service.Offset`, not the 64-bit one at line 126. For a page whose `(page-1)*limit` exceeds the int64 maximum, the code passes a wrapped, possibly negative offset to the repository, while the model fetches at the exact offset (an empty page past the end). The wrap is modelled only by `Service.WrappedOffset`; `Service.UserService.ListAgreesWithWrappedOffset` shows the two agree everywhere below the overflow. What the MongoDB repository does with a negative offset is not part of this model.
- `Response.TotalPages`: the float division and `math.Ceil` are exact integer ceiling division. Rounding of totals above 2^53 is not modelled. A zero limit, where Go converts an infinite or NaN quotient in a platform-dependent way, gives `None`.
- Middleware (rate limiting, CORS, recovery), configuration, logger setup, database connection and server start-up are not part of this model.

## Findings

| source | as written | input that shows it | evidently intended | confidence | as-written member | corrected member |
|---|---|---|---|---|---|---|
| internal/service/user_service.go:126 | `offset := (page - 1) * limit` on Go's 64-bit `int`; the page is only bounded below | `GET /api/v1/users?page=4611686018427387905&limit=2`: the offset wraps to -9223372036854775808 | the offset of a normalised page is `(page-1)*limit` and never negative | medium, not executed | `Service.OffsetWrapsNegative` (about `Service.WrappedOffset`) | `Service.Offset`, used by `Service.UserService.ListUsers` |
