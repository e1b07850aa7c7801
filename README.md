# User store and demonstration routes, in Dafny

This project models the core of a small Express CRUD backend.

- **`users.js`**: an in-memory array of user records `{id, name, email, phone}` served by five handlers.
  - POST `/` creates a record with a random id.
  - GET `/` lists the array.
  - GET `/:id` finds a record.
  - PUT `/:id` merges new field values into a record.
  - DELETE `/:id` splices records out.
- **`playWithRoutes.js`**: a middleware that checks a static shared-secret `authorization` header, a route behind it, a route without it, and a dummy login that hands out the secret.

Layout:

- `wrappers.dfy` (module `Wrappers`): `Option`.
- `json.dfy` (module `Json`): the JSON values a handler reads from a request body, JavaScript truthiness (`Truthy`) and `a || b` (`Or`).
- `users.dfy` (module `Users`): the records, the handlers' replies, the array operations the handlers use, and the store itself.
  - The array operations are `findIndex` (`FindIndex`), `find` (`Find`) and `splice` (`Removed`, `Spliced`), plus the update's merge (`Merge`).
  - The store is the class `UserStore`. Its field `users: seq<User>` is reassigned by the mutating handlers.
  - Its invariant `Valid()` says every record has an id in `[0, 100000)` and truthy name, email and phone. Create, update and delete all keep it.
- `play_with_routes.dfy` (module `PlayWithRoutes`): the auth gate as a function returning `Continue` or `Respond(reply)`, the two routes and the login, all pure functions.

Modelling choices:

- `parseInt(req.params.id)` is an `Option<int>`. `None` stands for `NaN`, which equals no id.
- `Math.floor(Math.random() * 100000)` is an `id` argument of `Create`, required to lie in `[0, 100000)`.
- A body field is a `Json.Value`. A missing key is `Undefined`. This makes `!name` and `name || old` follow JavaScript's rules for every JSON value, not only for strings.
- A reply is a status code plus the JSON object the handler sends.

The delete handler removes the matched record and, when there is one, the record after it, but answers with only the matched record, `deletedUser[0]`, under the singular message "User deleted successfully" (users.js:87-88). That shows a one-record delete was intended; see Findings.

## Model

| member | source | states |
|---|---|---|
| `Json.Truthy` | users.js:31 | the falsy values a body field can take are exactly `undefined`, `null`, `false`, `0` and the empty string |
| `Json.Or` | users.js:72-74 | `a \|\| b` yields one of its operands, `a` whenever `a` is truthy and `b` otherwise, and is truthy exactly when `a` or `b` is |
| `Users.Matches` | users.js:57 | a NaN parse matches no record; a numeric parse matches exactly the records with that id |
| `Users.HasAllFields` | users.js:31 | the presence check passes exactly when the record create would build from the body, with any id in `[0, 100000)`, satisfies the store invariant |
| `Users.FindIndex` | users.js:65 | the result is -1 exactly when no record's id equals the parsed id (never for NaN), else the index of the first matching record |
| `Users.Find` | users.js:57 | the result is absent exactly when no record matches; otherwise it is a record of the store whose id matches |
| `Users.FindAgreesWithFindIndex` | users.js:57-65 | `find` returns exactly the record at the position `findIndex` reports, so both lookups pick the first match |
| `Users.Removed` | users.js:87-88 | `splice(start, count)` returns `min(count, n - start)` records, the ones from `start` on, in order |
| `Users.Spliced` | users.js:87 | after `splice(start, count)` the length is `n - min(count, n - start)`, the prefix before `start` is unchanged and the rest is the old tail shifted down |
| `Users.SpliceReassembles` | users.js:87 | putting the removed records back at `start` restores the original array |
| `Users.Merge` | users.js:70-75 | the record the update writes back keeps the id; each field takes the supplied value when truthy and keeps the old one otherwise |
| `Users.MergeKeepsWellFormed` | users.js:70-75 | merging into a record with truthy fields and an in-range id gives such a record again |
| `Users.MergeFalsyBodyIsIdentity` | users.js:70-75 | an update whose fields are all empty or absent leaves the record unchanged |
| `Users.MergeOwnValuesIsIdentity` | users.js:70-75 | updating a record with its own values leaves it unchanged |
| `Users.MergeIdempotent` | users.js:70-75 | applying the same update twice gives the same record as applying it once |
| `Users.CreateThenGet` | users.js:35-59 | after appending a record whose id no earlier record has, get-by-id with that id returns that record |
| `Users.CreateCollisionShadowed` | users.js:35-57 | when the random id collides with an existing one, get-by-id still returns the older record |
| `Users.UpdateThenGet` | users.js:57-75 | after an update, get-by-id with the same id returns the merged record |
| `Users.FindSkipsRemoved` | users.js:82-87 | removing one record that does not match an id leaves the lookup of that id unchanged |
| `Users.DeleteTakesNeighbour` | users.js:87 | when the matched record has a successor, the delete removes two records, the matched one and the next |
| `Users.DeleteFirstInitialUser` | users.js:82-88 | on the initial store, deleting id 10137 also removes the record with id 96951, which is then not found |
| `Users.DeleteOneRemovesOnlyTarget` | users.js:82-88 | the width-1 delete removes exactly the matched record and every other id's lookup is unchanged, on any store; when ids are unique the deleted id is then not found |
| `Users.UserStore.constructor` | users.js:6-25 | the store starts with the three fixed records, and they satisfy the store invariant |
| `Users.UserStore.Create` | users.js:28-40 | a missing or falsy name, email or phone gives 400 and no change; otherwise `{id, name, email, phone}` is appended, all earlier records are kept, and 201 is returned with the appended record |
| `Users.UserStore.List` | users.js:43-45 | answers 200 with the whole store in insertion order |
| `Users.UserStore.GetById` | users.js:54-60 | 404 exactly when no record matches the parsed id; otherwise 200 with the record at the first matching position `FindIndex(users, id)` |
| `Users.UserStore.Update` | users.js:63-78 | no match gives 404 and no change; otherwise only the first matching slot is replaced by the merged record, the length is kept, and 200 is returned with the merged record |
| `Users.UserStore.Delete` | users.js:81-89 | no match gives 404 and no change; otherwise `splice(k, 2)` is applied at the first match `k` and 200 is returned with the matched record |
| `Users.UserStore.DeleteOne` | users.js:81-89 | as `Delete` but with `splice(k, 1)`: the length drops by exactly one |
| `PlayWithRoutes.AuthMiddleware` | playWithRoutes.js:4-11 | calls `next` exactly when the `authorization` header equals `"mysecrettoken"`; otherwise, an absent header included, answers 403 "Forbidden: Invalid token" |
| `PlayWithRoutes.ValidRoute` | playWithRoutes.js:13-15 | answers 200 with the protected message exactly when the gate lets the request through, else the gate's 403 |
| `PlayWithRoutes.NormalRoute` | playWithRoutes.js:17-19 | answers 200 with its message whatever the `authorization` header |
| `PlayWithRoutes.Login` | playWithRoutes.js:22-29 | returns the token `"mysecrettoken"` exactly when username is `"admin"` and password is `"password"`; otherwise 401 "Unauthorized: Invalid credentials" |
| `PlayWithRoutes.LoginTokenPassesGate` | playWithRoutes.js:4-25 | the token from a successful login passes the gate and reaches the protected route |

## Findings

| source | as written | input that shows it | evidently intended | confidence | as-written member | corrected member |
|---|---|---|---|---|---|---|
| users.js:87 | `users.splice(userIndex, 2)` removes the matched record and the one after it | initial store, DELETE `/10137`: Shiva and Suresh are both removed | `users.splice(userIndex, 1)`, removing only the matched record | high (not executed) | `Users.DeleteFirstInitialUser` | `Users.DeleteOneRemovesOnlyTarget` |

`Users.UserStore.Delete` keeps the behaviour as written. `Users.UserStore.DeleteOne` is the corrected handler.

## Left out

- The randomness of `Math.random` (users.js:35). The id is an argument of `Create` in `[0, 100000)`.
- String-to-integer parsing (`parseInt`, users.js:57, 65, 82). It is abstracted to `Option<int>`.
- JSON numbers are `real`. Floating-point rounding is not modelled; JSON has no `NaN`.
- Arrays and objects in a request body are one opaque truthy value. Their contents are not modelled.
- A request with no parsed body is not modelled.
- The `console.log` calls (users.js:55-56), Express routing and path matching, and JSON serialisation.
- Record ids are not guaranteed unique, just as in the source. `Users.DeleteOneRemovesOnlyTarget` states its "id no longer found" clause only for stores with unique ids.
- `routes/userRoutes.js` and `routes/postRoutes.js`: they delegate to Mongoose models, and that database library is not part of this model.
- `posts.js`: it only returns a constant array.
- `index.js`: server bootstrap and `app.listen`.
