/** The in-memory user store of `users.js` and its five CRUD handlers.

    The store is an ordered sequence of user records that the POST, PUT and
    DELETE handlers change in place; GET answers are scans over it. Record
    ids come from a random generator and are never checked for collisions,
    so a lookup is "the first record whose id matches". */
module Users {

  import opened Wrappers
  import opened Json

  /** Ids are drawn as `Math.floor(Math.random() * IdBound)`. */
  const IdBound: int := 100000

  datatype User = User(id: int, name: Value, email: Value, phone: Value)

  /** The three fields a handler destructures from the request body. */
  datatype Body = Body(name: Value, email: Value, phone: Value)

  /** The JSON object a handler answers with. */
  datatype Payload =
    | Message(text: string)
    | WithUser(text: string, user: User)
    | DataList(users: seq<User>)
    | DataUser(user: User)

  datatype Reply = Reply(status: nat, payload: Payload)

  const AllFieldsRequired: string := "All fields are required"
  const UserCreated: string := "User created successfully"
  const UserNotFound: string := "User not found"
  const UserUpdated: string := "User updated successfully"
  const UserDeleted: string := "User deleted successfully"

  /** The three records the store starts with. */
  const InitialUsers: seq<User> := [
    User(10137, Str("Shiva"), Str("shiva@gmail.com"), Str("423523525")),
    User(96951, Str("Suresh"), Str("suresh@gmail.com"), Str("354534534")),
    User(60512, Str("Shubham"), Str("shub@gmail.com"), Str("635456456"))
  ]

  /** What every stored record satisfies: an id the generator can produce
      and three truthy fields. */
  predicate WellFormed(u: User)
  {
    0 <= u.id < IdBound && Truthy(u.name) && Truthy(u.email) && Truthy(u.phone)
  }

  predicate AllWellFormed(s: seq<User>)
  {
    forall i :: 0 <= i < |s| ==> WellFormed(s[i])
  }

  /** No two records share an id (not enforced by the store). */
  predicate UniqueIds(s: seq<User>)
  {
    forall i, j :: 0 <= i < |s| && 0 <= j < |s| && s[i].id == s[j].id ==> i == j
  }

  /** `u.id === parseInt(param)`; a NaN parse (`None`) equals no id. */
  predicate Matches(u: User, id: Option<int>)
    ensures id.None? ==> !Matches(u, id)
    ensures id.Some? ==> (Matches(u, id) <==> u.id == id.value)
  {
    id == Some(u.id)
  }

  predicate NoMatch(s: seq<User>, id: Option<int>)
  {
    forall j :: 0 <= j < |s| ==> !Matches(s[j], id)
  }

  /** `k` is the position of the first record matching `id`. */
  predicate IsFirstMatch(s: seq<User>, id: Option<int>, k: int)
  {
    0 <= k < |s| && Matches(s[k], id) && forall j :: 0 <= j < k ==> !Matches(s[j], id)
  }

  /** The presence check of the create handler: it lets through exactly the
      bodies from which create builds a record that keeps the store invariant. */
  predicate HasAllFields(b: Body)
    ensures forall id {:trigger User(id, b.name, b.email, b.phone)} | 0 <= id < IdBound ::
              HasAllFields(b) <==> WellFormed(User(id, b.name, b.email, b.phone))
  {
    Truthy(b.name) && Truthy(b.email) && Truthy(b.phone)
  }

  function Min(a: int, b: int): int
  {
    if a <= b then a else b
  }

  // ---------------------------------------------------------------------
  // The array operations the handlers use
  // ---------------------------------------------------------------------

  /** `Array.prototype.findIndex` with the id test: the position of the
      first matching record, or -1 when there is none. */
  function FindIndex(s: seq<User>, id: Option<int>): (r: int)
    ensures -1 <= r < |s|
    ensures r == -1 <==> NoMatch(s, id)
    ensures r != -1 ==> IsFirstMatch(s, id, r)
  {
    if s == [] then -1
    else if Matches(s[0], id) then 0
    else
      var k := FindIndex(s[1..], id);
      assert forall j :: 1 <= j < |s| ==> s[j] == s[1..][j - 1];
      if k == -1 then -1 else k + 1
  }

  /** `Array.prototype.find` with the id test: the first matching record. */
  function Find(s: seq<User>, id: Option<int>): (r: Option<User>)
    ensures r.None? <==> NoMatch(s, id)
    ensures r.Some? ==> r.value in s && Matches(r.value, id)
  {
    if s == [] then None
    else if Matches(s[0], id) then Some(s[0])
    else
      assert forall j :: 1 <= j < |s| ==> s[j] == s[1..][j - 1];
      Find(s[1..], id)
  }

  /** The two scans agree: `find` yields the record at the position
      `findIndex` reports. */
  lemma {:induction false} FindAgreesWithFindIndex(s: seq<User>, id: Option<int>)
    ensures Find(s, id) == if FindIndex(s, id) == -1 then None else Some(s[FindIndex(s, id)])
  {
    if s != [] && !Matches(s[0], id) {
      FindAgreesWithFindIndex(s[1..], id);
    }
  }

  /** The records that `s.splice(start, count)` removes, in order. */
  function Removed<T>(s: seq<T>, start: nat, count: nat): (r: seq<T>)
    requires start <= |s|
    ensures |r| == Min(count, |s| - start)
    ensures forall i :: 0 <= i < |r| ==> r[i] == s[start + i]
  {
    s[start..Min(start + count, |s|)]
  }

  /** What `s.splice(start, count)` leaves in the array: the prefix before
      `start` unchanged, then the tail shifted down past the removed ones. */
  function Spliced<T>(s: seq<T>, start: nat, count: nat): (r: seq<T>)
    requires start <= |s|
    ensures |r| == |s| - Min(count, |s| - start)
    ensures forall i :: 0 <= i < start ==> r[i] == s[i]
    ensures forall i :: start <= i < |r| ==> r[i] == s[i + Min(count, |s| - start)]
  {
    s[..start] + s[Min(start + count, |s|)..]
  }

  /** Putting the removed records back where they were gives the original
      array back. */
  lemma SpliceReassembles<T>(s: seq<T>, start: nat, count: nat)
    requires start <= |s|
    ensures Spliced(s, start, count)[..start] + Removed(s, start, count)
            + Spliced(s, start, count)[start..] == s
  {
    var r := Spliced(s, start, count);
    assert r[..start] == s[..start];
    assert r[start..] == s[Min(start + count, |s|)..];
    assert s == s[..start] + s[start..Min(start + count, |s|)] + s[Min(start + count, |s|)..];
  }

  /** The record the update handler writes back: the id is kept, and each
      field takes the supplied value when that is truthy and keeps the old
      value otherwise. */
  function Merge(u: User, b: Body): (r: User)
    ensures r.id == u.id
    ensures r.name == if Truthy(b.name) then b.name else u.name
    ensures r.email == if Truthy(b.email) then b.email else u.email
    ensures r.phone == if Truthy(b.phone) then b.phone else u.phone
  {
    User(u.id, Or(b.name, u.name), Or(b.email, u.email), Or(b.phone, u.phone))
  }

  // ---------------------------------------------------------------------
  // Properties of the merge
  // ---------------------------------------------------------------------

  /** Merging into a well-formed record gives a well-formed record. */
  lemma MergeKeepsWellFormed(u: User, b: Body)
    requires WellFormed(u)
    ensures WellFormed(Merge(u, b))
  {
  }

  /** An update whose fields are all empty or absent changes nothing. */
  lemma MergeFalsyBodyIsIdentity(u: User, b: Body)
    requires !Truthy(b.name) && !Truthy(b.email) && !Truthy(b.phone)
    ensures Merge(u, b) == u
  {
  }

  /** Updating a record with its own values changes nothing. */
  lemma MergeOwnValuesIsIdentity(u: User)
    ensures Merge(u, Body(u.name, u.email, u.phone)) == u
  {
  }

  /** Repeating an update changes nothing more. */
  lemma MergeIdempotent(u: User, b: Body)
    ensures Merge(Merge(u, b), b) == Merge(u, b)
  {
  }

  // ---------------------------------------------------------------------
  // Properties of the lookups across handlers
  // ---------------------------------------------------------------------

  /** Get-by-id after a create whose id did not collide returns the
      created record. */
  lemma {:induction false} CreateThenGet(s: seq<User>, u: User)
    requires NoMatch(s, Some(u.id))
    ensures Find(s + [u], Some(u.id)) == Some(u)
  {
    if s != [] {
      assert (s + [u])[1..] == s[1..] + [u];
      CreateThenGet(s[1..], u);
    }
  }

  /** When the generated id collides, get-by-id keeps answering with the
      older record: the appended one is shadowed. */
  lemma {:induction false} CreateCollisionShadowed(s: seq<User>, u: User)
    requires !NoMatch(s, Some(u.id))
    ensures Find(s + [u], Some(u.id)) == Find(s, Some(u.id))
  {
    if !Matches(s[0], Some(u.id)) {
      assert (s + [u])[1..] == s[1..] + [u];
      CreateCollisionShadowed(s[1..], u);
    }
  }

  /** Get-by-id after a successful update returns the merged record. */
  lemma UpdateThenGet(s: seq<User>, id: Option<int>, b: Body)
    requires FindIndex(s, id) != -1
    ensures var k := FindIndex(s, id);
            Find(s[k := Merge(s[k], b)], id) == Some(Merge(s[k], b))
  {
    var k := FindIndex(s, id);
    var t := s[k := Merge(s[k], b)];
    assert IsFirstMatch(t, id, k);
    FindAgreesWithFindIndex(t, id);
  }

  /** Taking out one record that does not match `id` does not change what
      a lookup of `id` finds. */
  lemma {:induction false} FindSkipsRemoved(s: seq<User>, k: nat, id: Option<int>)
    requires k < |s| && !Matches(s[k], id)
    ensures Find(Spliced(s, k, 1), id) == Find(s, id)
  {
    var t := Spliced(s, k, 1);
    if k == 0 {
      assert t == s[1..];
    } else {
      assert t[0] == s[0];
      if !Matches(s[0], id) {
        assert t[1..] == Spliced(s[1..], k - 1, 1);
        FindSkipsRemoved(s[1..], k - 1, id);
      }
    }
  }

  // ---------------------------------------------------------------------
  // The delete width
  // ---------------------------------------------------------------------

  /** As written, the delete handler takes out the matched record AND the
      one after it whenever there is one. */
  lemma DeleteTakesNeighbour(s: seq<User>, id: Option<int>)
    requires FindIndex(s, id) != -1 && FindIndex(s, id) + 1 < |s|
    ensures |Spliced(s, FindIndex(s, id), 2)| == |s| - 2
    ensures Removed(s, FindIndex(s, id), 2) == [s[FindIndex(s, id)], s[FindIndex(s, id) + 1]]
  {
  }

  /** On the initial store, deleting Shiva also deletes Suresh, whose id is
      then no longer found. */
  lemma DeleteFirstInitialUser()
    ensures FindIndex(InitialUsers, Some(10137)) == 0
    ensures Spliced(InitialUsers, 0, 2) == [InitialUsers[2]]
    ensures Find(Spliced(InitialUsers, 0, 2), Some(96951)) == None
  {
    assert Spliced(InitialUsers, 0, 2) == [InitialUsers[2]];
  }

  /** The intended delete: exactly one record goes, every other lookup is
      unchanged, and when ids are unique the deleted id is no longer found. */
  lemma DeleteOneRemovesOnlyTarget(s: seq<User>, id: Option<int>, other: Option<int>)
    requires FindIndex(s, id) != -1
    requires other != id
    ensures |Spliced(s, FindIndex(s, id), 1)| == |s| - 1
    ensures Removed(s, FindIndex(s, id), 1) == [s[FindIndex(s, id)]]
    ensures Find(Spliced(s, FindIndex(s, id), 1), other) == Find(s, other)
    ensures UniqueIds(s) ==> Find(Spliced(s, FindIndex(s, id), 1), id) == None
  {
    var k := FindIndex(s, id);
    var t := Spliced(s, k, 1);
    if UniqueIds(s) {
      forall j | 0 <= j < |t|
        ensures !Matches(t[j], id)
      {
        var i := if j < k then j else j + 1;
        assert t[j] == s[i] && i != k;
      }
    }
    FindSkipsRemoved(s, k, other);
  }

  // ---------------------------------------------------------------------
  // The store and its handlers
  // ---------------------------------------------------------------------

  class UserStore {
    var users: seq<User>

    ghost predicate Valid()
      reads this
    {
      AllWellFormed(users)
    }

    constructor ()
      ensures Valid() && users == InitialUsers
    {
      users := InitialUsers;
    }

    /** POST `/`: 400 when a field is missing or falsy, else append a new
        record with the supplied id and answer 201 with it. */
    method Create(body: Body, id: int) returns (r: Reply)
      requires Valid()
      requires 0 <= id < IdBound
      modifies this
      ensures Valid()
      ensures !HasAllFields(body) ==>
                r == Reply(400, Message(AllFieldsRequired)) && users == old(users)
      ensures HasAllFields(body) ==>
                var u := User(id, body.name, body.email, body.phone);
                users == old(users) + [u] && r == Reply(201, WithUser(UserCreated, u))
    {
      if !Truthy(body.name) || !Truthy(body.email) || !Truthy(body.phone) {
        return Reply(400, Message(AllFieldsRequired));
      }
      var u := User(id, body.name, body.email, body.phone);
      users := users + [u];
      r := Reply(201, WithUser(UserCreated, u));
    }

    /** GET `/`: the whole store, in insertion order. */
    method List() returns (r: Reply)
      ensures r.status == 200 && r.payload.DataList? && r.payload.users == users
    {
      r := Reply(200, DataList(users));
    }

    /** GET `/:id`: the first record whose id matches, or 404. */
    method GetById(id: Option<int>) returns (r: Reply)
      ensures r.status == 404 <==> NoMatch(users, id)
      ensures r.status == 404 ==> r.payload == Message(UserNotFound)
      ensures r.status != 404 ==>
                IsFirstMatch(users, id, FindIndex(users, id))
                && r == Reply(200, DataUser(users[FindIndex(users, id)]))
    {
      var found := Find(users, id);
      if found.None? {
        return Reply(404, Message(UserNotFound));
      }
      FindAgreesWithFindIndex(users, id);
      r := Reply(200, DataUser(found.value));
    }

    /** PUT `/:id`: 404 when no record matches; else the first matching
        slot is overwritten with the merged record, which is returned. */
    method Update(id: Option<int>, body: Body) returns (r: Reply)
      requires Valid()
      modifies this
      ensures Valid()
      ensures NoMatch(old(users), id) ==>
                r == Reply(404, Message(UserNotFound)) && users == old(users)
      ensures !NoMatch(old(users), id) ==>
                var k := FindIndex(old(users), id);
                users == old(users)[k := Merge(old(users)[k], body)]
                && r == Reply(200, WithUser(UserUpdated, users[k]))
    {
      var k := FindIndex(users, id);
      if k == -1 {
        return Reply(404, Message(UserNotFound));
      }
      MergeKeepsWellFormed(users[k], body);
      users := users[k := Merge(users[k], body)];
      r := Reply(200, WithUser(UserUpdated, users[k]));
    }

    /** DELETE `/:id` as written: 404 when no record matches; else
        `splice(k, 2)` takes out the matched record and, when there is one,
        the record after it, and the matched record is returned. */
    method Delete(id: Option<int>) returns (r: Reply)
      requires Valid()
      modifies this
      ensures Valid()
      ensures NoMatch(old(users), id) ==>
                r == Reply(404, Message(UserNotFound)) && users == old(users)
      ensures !NoMatch(old(users), id) ==>
                var k := FindIndex(old(users), id);
                users == Spliced(old(users), k, 2)
                && r == Reply(200, WithUser(UserDeleted, old(users)[k]))
    {
      var k := FindIndex(users, id);
      if k == -1 {
        return Reply(404, Message(UserNotFound));
      }
      var deleted := Removed(users, k, 2);
      users := Spliced(users, k, 2);
      r := Reply(200, WithUser(UserDeleted, deleted[0]));
    }

    /** DELETE `/:id` with the evidently intended `splice(k, 1)`: only the
        matched record is taken out. */
    method DeleteOne(id: Option<int>) returns (r: Reply)
      requires Valid()
      modifies this
      ensures Valid()
      ensures NoMatch(old(users), id) ==>
                r == Reply(404, Message(UserNotFound)) && users == old(users)
      ensures !NoMatch(old(users), id) ==>
                var k := FindIndex(old(users), id);
                users == Spliced(old(users), k, 1) && |users| == |old(users)| - 1
                && r == Reply(200, WithUser(UserDeleted, old(users)[k]))
    {
      var k := FindIndex(users, id);
      if k == -1 {
        return Reply(404, Message(UserNotFound));
      }
      var deleted := Removed(users, k, 1);
      users := Spliced(users, k, 1);
      r := Reply(200, WithUser(UserDeleted, deleted[0]));
    }
  }
}
