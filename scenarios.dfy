/** Client programs that use the service and the handler only through their contracts:
    the life cycle of one user, the create-then-get round trip, and the duplicate that
    a failing lookup lets through. */
module Scenarios {
  import opened Outcomes
  import opened Domain
  import opened Store
  import opened Service
  import opened Response
  import opened Handler

  /** A stand-in hasher that always succeeds. */
  function FixedHash(plaintext: string): Option<string> {
    Some("$2a$10$hash")
  }

  /** Reading back a freshly created user yields the projection CreateUser returned. */
  method CreateThenGet(service: UserService, req: CreateUserRequest, hash: string -> Option<string>)
    returns (created: Result<UserResponse, string>, fetched: Result<UserResponse, string>)
    requires service.repo.Valid() && GetByIDOp !in service.repo.outage
    modifies service.repo
    ensures created.Ok? ==> fetched == created
  {
    created := service.CreateUser(req, hash);
    fetched := created;
    if created.Ok? {
      fetched := service.GetUser(created.value.id);
    }
  }

  /** Create alice; a second account with her email is refused whatever its username
      (a 400 from the handler); deactivating her keeps her name; after deletion she is
      not found (a 404), and an empty id is a 400. */
  method UserLifecycle() {
    var store := new UserStore(100, {});
    var service := new UserService(store);
    var handler := new UserHandler(service);
    var alice := CreateUserRequest("a@x.com", "alice", "pw123456", "Alice", "Liddell");

    var created := service.CreateUser(alice, FixedHash);
    assert created.Ok? && created.value.isActive && created.value.username == "alice";
    var id := created.value.id;
    assert store.order == [id] && store.users[id].email == "a@x.com";
    assert FirstMatch(store.order, store.users, ByEmail, "a@x.com") == Some(0);
    assert store.Find(ByEmail, "a@x.com").Ok?;

    var again := handler.CreateUser(Ok(CreateUserRequest("a@x.com", "alice2", "other-pw", "", "")), FixedHash);
    assert again == Error(400, "Failed to create user", EmailTaken);

    assert store.Lookup(id).Ok?;
    var updated := service.UpdateUser(id, UpdateUserRequest(None, None, Some(false)));
    assert updated.Ok? && !updated.value.isActive && updated.value.firstName == "Alice";

    assert store.Lookup(id).Ok?;
    var deleted := handler.DeleteUser(id);
    assert deleted.status == 200;

    assert store.Lookup(id) == Err(NoDocuments);
    var fetched := handler.GetUser(id);
    assert fetched == Error(404, "User not found", UserNotFound);

    var missing := handler.GetUser("");
    assert missing.status == 400;
  }

  /** While the email lookup fails, a second record with the same email is created:
      the lookup error counts as "free". */
  method DuplicateThroughFailedLookup() {
    var store := new UserStore(0, {});
    var service := new UserService(store);
    var first := service.CreateUser(CreateUserRequest("b@x.com", "bob", "pw", "", ""), FixedHash);
    assert first.Ok?;
    store.outage := {GetByEmailOp};
    var second := service.CreateUser(CreateUserRequest("b@x.com", "robert", "pw", "", ""), FixedHash);
    assert second.Ok? && second.value.id != first.value.id;
    assert store.users[first.value.id].email == store.users[second.value.id].email;
    assert !store.Unique();
  }
}
