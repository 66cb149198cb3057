/** An in-memory user repository: the seven store operations the service relies on
    (GetByID, GetByEmail, GetByUsername, Create, Update, Delete, List), with a
    "not found" error kept apart from every other failure. Store failures are
    injected through the `outage` field, one flag per operation. */
module Store {
  import opened Outcomes
  import opened Domain

  /** The store operations, used to say which of them currently fail. */
  datatype StoreOp = GetByIDOp | GetByEmailOp | GetByUsernameOp | CreateOp | UpdateOp | DeleteOp | ListOp

  /** `NoDocuments` is the driver's "not found" sentinel; `Unavailable` is any other failure. */
  datatype StoreError = NoDocuments | Unavailable

  /** The two secondary lookups. */
  datatype Index = ByEmail | ByUsername

  /** The store operation that serves a lookup through `index`. */
  function LookupOp(index: Index): StoreOp {
    match index
    case ByEmail => GetByEmailOp
    case ByUsername => GetByUsernameOp
  }

  function Field(u: User, index: Index): string {
    match index
    case ByEmail => u.email
    case ByUsername => u.username
  }

  /** One lower-case hexadecimal digit. */
  function HexDigit(d: nat): (c: char)
    requires d < 16
    ensures d < 10 ==> c as int == '0' as int + d
    ensures 10 <= d ==> c as int == 'a' as int + (d - 10)
  {
    if d < 10 then ('0' as int + d) as char else ('a' as int + (d - 10)) as char
  }

  /** The text form of an identifier (the opaque id-to-string mapping). */
  function Hex(n: nat): (s: string)
    ensures 1 <= |s|
    ensures (|s| == 1) == (n < 16)
  {
    if n < 16 then [HexDigit(n)] else Hex(n / 16) + [HexDigit(n % 16)]
  }

  /** Distinct identifiers have distinct text forms, so ids handed out from a counter
      never collide. */
  lemma {:induction false} HexInjective(n: nat, m: nat)
    ensures Hex(n) == Hex(m) ==> n == m
  {
    if n < 16 || m < 16 {
      if Hex(n) == Hex(m) {
        assert n < 16 && m < 16;
        assert Hex(n)[0] == HexDigit(n) && Hex(m)[0] == HexDigit(m);
      }
    } else {
      HexInjective(n / 16, m / 16);
      if Hex(n) == Hex(m) {
        var s := Hex(n);
        assert s == Hex(n / 16) + [HexDigit(n % 16)];
        assert s == Hex(m / 16) + [HexDigit(m % 16)];
        assert Hex(n / 16) == s[..|s| - 1] == Hex(m / 16);
        assert HexDigit(n % 16) == s[|s| - 1] == HexDigit(m % 16);
      }
    }
  }

  /** True when no identifier occurs twice in `s`. */
  ghost predicate NoDup(s: seq<string>) {
    forall i, j :: 0 <= i < j < |s| ==> s[i] != s[j]
  }

  /** `s` with every occurrence of `x` taken out, the rest kept in order. */
  function Without(s: seq<string>, x: string): (r: seq<string>)
    ensures forall y :: y in r <==> y in s && y != x
    ensures NoDup(s) ==> NoDup(r)
  {
    if s == [] then []
    else if s[0] == x then Without(s[1..], x)
    else
      var rest := Without(s[1..], x);
      assert NoDup(s) ==> s[0] !in s[1..] && NoDup(s[1..]);
      [s[0]] + rest
  }

  /** The position of the first identifier in `ids` whose record has `value` in the
      given field, records that are missing being skipped. */
  function FirstMatch(ids: seq<string>, users: map<string, User>, index: Index, value: string): (r: Option<nat>)
    ensures r.Some? ==> r.value < |ids| && ids[r.value] in users && Field(users[ids[r.value]], index) == value
    ensures r.Some? ==> forall j :: 0 <= j < r.value && ids[j] in users ==> Field(users[ids[j]], index) != value
    ensures r.None? <==> forall j :: 0 <= j < |ids| && ids[j] in users ==> Field(users[ids[j]], index) != value
  {
    if ids == [] then None
    else if ids[0] in users && Field(users[ids[0]], index) == value then Some(0)
    else
      match FirstMatch(ids[1..], users, index, value)
      case None => None
      case Some(i) => Some(i + 1)
  }

  /** No two records of `users` share an email or a username. */
  ghost predicate UniqueIn(users: map<string, User>) {
    forall a, b :: a in users && b in users && a != b ==>
      users[a].email != users[b].email && users[a].username != users[b].username
  }

  function Min(a: int, b: int): int {
    if a <= b then a else b
  }

  class UserStore {
    /** The stored records, keyed by the text form of their identifiers. */
    var users: map<string, User>
    /** The natural (insertion) order of the records, which `List` pages through. */
    var order: seq<string>
    /** The next identifier to hand out. */
    var nextId: nat
    /** The store's clock, used to stamp new records. */
    var clock: Instant
    /** The operations that currently fail with a store error other than "not found". */
    var outage: set<StoreOp>

    ghost predicate Valid()
      reads this
    {
      && (forall id :: id in users ==> users[id].id == id)
      && (forall i :: 0 <= i < |order| ==> order[i] in users)
      && (forall id :: id in users ==> id in order)
      && NoDup(order)
      && (forall n: nat :: n >= nextId ==> Hex(n) !in users)
    }

    /** No two stored records share an email or a username. */
    ghost predicate Unique()
      reads this
    {
      UniqueIn(users)
    }

    constructor (clock: Instant, outage: set<StoreOp>)
      ensures Valid()
      ensures users == map[] && order == [] && this.clock == clock && this.outage == outage
    {
      users, order, nextId := map[], [], 0;
      this.clock, this.outage := clock, outage;
    }

    /** What `GetByID` answers. */
    function Lookup(id: string): (r: Result<User, StoreError>)
      reads this
      ensures r.Ok? <==> GetByIDOp !in outage && id in users
      ensures r.Ok? ==> r.value == users[id]
      ensures r == Err(NoDocuments) <==> GetByIDOp !in outage && id !in users
    {
      if GetByIDOp in outage then Err(Unavailable)
      else if id in users then Ok(users[id])
      else Err(NoDocuments)
    }

    /** What `GetByEmail` (index ByEmail) and `GetByUsername` (index ByUsername) answer:
        the first record in natural order whose field matches. */
    function Find(index: Index, value: string): (r: Result<User, StoreError>)
      reads this
      requires Valid()
      ensures r.Ok? ==> r.value in users.Values && Field(r.value, index) == value
      ensures r.Err? && LookupOp(index) in outage ==> r.error == Unavailable
      ensures r == Err(NoDocuments) <==>
        LookupOp(index) !in outage && forall id :: id in users ==> Field(users[id], index) != value
    {
      if LookupOp(index) in outage then Err(Unavailable)
      else
        match FirstMatch(order, users, index, value)
        case None =>
          assert forall id :: id in users ==> Field(users[id], index) != value by {
            forall id | id in users
              ensures Field(users[id], index) != value
            {
              var j :| 0 <= j < |order| && order[j] == id;
            }
          }
          Err(NoDocuments)
        case Some(i) => Ok(users[order[i]])
    }

    /** What `Create` answers for the record `u`: the record as stored, with its fresh
        identifier and timestamps. */
    function CreateResult(u: User): (r: Result<User, StoreError>)
      reads this
      requires Valid()
      ensures r.Err? <==> CreateOp in outage
      ensures r.Ok? ==> r.value.id !in users && r.value == u.(id := r.value.id, createdAt := clock, updatedAt := clock)
    {
      if CreateOp in outage then Err(Unavailable)
      else Ok(u.(id := Hex(nextId), createdAt := clock, updatedAt := clock))
    }

    /** The records at `ids`, in that order. */
    function Records(ids: seq<string>): (r: seq<User>)
      reads this
      requires forall i :: 0 <= i < |ids| ==> ids[i] in users
      ensures |r| == |ids| && forall k :: 0 <= k < |ids| ==> r[k] == users[ids[k]]
    {
      if ids == [] then [] else [users[ids[0]]] + Records(ids[1..])
    }

    /** The records a `List(offset, limit)` returns: those at positions
        offset .. offset+limit-1 of the natural order that exist. */
    function PageOf(offset: nat, limit: nat): (r: seq<User>)
      reads this
      requires Valid()
      ensures |r| == Min(offset + limit, |order|) - Min(offset, |order|)
      ensures forall k :: 0 <= k < |r| ==> r[k] == users[order[offset + k]]
    {
      Records(order[Min(offset, |order|)..Min(offset + limit, |order|)])
    }

    method GetByID(id: string) returns (r: Result<User, StoreError>)
      ensures r == Lookup(id)
    {
      r := Lookup(id);
    }

    method GetByEmail(email: string) returns (r: Result<User, StoreError>)
      requires Valid()
      ensures r == Find(ByEmail, email)
    {
      r := Find(ByEmail, email);
    }

    method GetByUsername(username: string) returns (r: Result<User, StoreError>)
      requires Valid()
      ensures r == Find(ByUsername, username)
    {
      r := Find(ByUsername, username);
    }

    method Create(u: User) returns (r: Result<User, StoreError>)
      requires Valid()
      modifies this
      ensures Valid()
      ensures r == old(CreateResult(u))
      ensures outage == old(outage) && clock == old(clock)
      ensures r.Err? ==> unchanged(this)
      ensures r.Ok? ==> users == old(users)[r.value.id := r.value] && order == old(order) + [r.value.id]
    {
      r := CreateResult(u);
      if r.Ok? {
        ghost var k := nextId;
        users := users[r.value.id := r.value];
        order := order + [r.value.id];
        nextId := nextId + 1;
        forall n: nat | n >= nextId
          ensures Hex(n) !in users
        {
          HexInjective(n, k);
        }
      }
    }

    method Update(id: string, u: User) returns (r: Result<(), StoreError>)
      requires Valid()
      modifies this
      ensures Valid()
      ensures outage == old(outage) && clock == old(clock) && order == old(order)
      ensures r.Ok? <==> UpdateOp !in old(outage) && id in old(users)
      ensures r.Ok? ==> users == old(users)[id := u.(id := id)]
      ensures r.Err? ==> unchanged(this)
    {
      if UpdateOp in outage {
        r := Err(Unavailable);
      } else if id !in users {
        r := Err(NoDocuments);
      } else {
        users := users[id := u.(id := id)];
        r := Ok(());
      }
    }

    method Delete(id: string) returns (r: Result<(), StoreError>)
      requires Valid()
      modifies this
      ensures Valid()
      ensures outage == old(outage) && clock == old(clock)
      ensures r.Ok? <==> DeleteOp !in old(outage) && id in old(users)
      ensures r.Ok? ==> users == old(users) - {id} && order == Without(old(order), id)
      ensures r.Err? ==> unchanged(this)
    {
      if DeleteOp in outage {
        r := Err(Unavailable);
      } else if id !in users {
        r := Err(NoDocuments);
      } else {
        ghost var before := order;
        users := users - {id};
        order := Without(order, id);
        forall i | 0 <= i < |order|
          ensures order[i] in users
        {
          assert order[i] in before;
        }
        r := Ok(());
      }
    }

    method List(offset: int, limit: int) returns (r: Result<(seq<User>, int), StoreError>)
      requires Valid()
      requires 0 <= offset && 1 <= limit <= 100
      ensures r.Err? <==> ListOp in outage
      ensures r.Err? ==> r.error == Unavailable
      ensures r.Ok? ==> r.value == (PageOf(offset, limit), |order|)
    {
      if ListOp in outage {
        r := Err(Unavailable);
      } else {
        r := Ok((PageOf(offset, limit), |order|));
      }
    }
  }
}
