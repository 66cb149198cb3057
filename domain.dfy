/** The entity and request/response shapes of the user domain, as the service and the
    handler use them. */
module Domain {
  import opened Outcomes

  /** Go's 64-bit `int`, the type of the parsed `page` and `limit` query values. */
  type Int64 = x: int | -0x8000_0000_0000_0000 <= x <= 0x7fff_ffff_ffff_ffff

  const MinInt64: int := -0x8000_0000_0000_0000
  const MaxInt64: int := 0x7fff_ffff_ffff_ffff

  /** Timestamps are opaque instants chosen by the store. */
  type Instant = int

  /** A stored user record. `id` is the hexadecimal form of the store's identifier;
      `password` holds the hasher's output, not the request's plaintext field. */
  datatype User = User(
    id: string,
    email: string,
    username: string,
    password: string,
    firstName: string,
    lastName: string,
    isActive: bool,
    createdAt: Instant,
    updatedAt: Instant)

  /** The public projection of a user. It has no password field. */
  datatype UserResponse = UserResponse(
    id: string,
    email: string,
    username: string,
    firstName: string,
    lastName: string,
    isActive: bool,
    createdAt: Instant,
    updatedAt: Instant)

  /** A creation request, already decoded from the request body. */
  datatype CreateUserRequest = CreateUserRequest(
    email: string,
    username: string,
    password: string,
    firstName: string,
    lastName: string)

  /** A partial update: each field is present (`Some`) or absent (`None`, a nil pointer). */
  datatype UpdateUserRequest = UpdateUserRequest(
    firstName: Option<string>,
    lastName: Option<string>,
    isActive: Option<bool>)
}
