# Friends facade, modelled in Dafny

This project models `FriendsFacade`, the facade in `src/facades/friendFacade.ts`. The facade
keeps "friend" records (first name, last name, email, password, optional id and role) in one
document collection that is addressed by email. It offers six operations:

- `addFriend` checks a record against `USER_INPUT_SCHEMA`, hashes the password and inserts the record.
- `editFriend` checks a payload, hashes its password if it has one, and upserts it with `$set` under `{ email }`.
- `deleteFriend` deletes the first record with the email.
- `getAllFriends` lists every record.
- `getFrind` fetches the first record with the email.
- `getVerifiedUser` fetches that record only when the given password matches its stored hash.

Modules, one per concern:

- `Wrappers` (wrappers.dfy): `Option` and `Result`.
- `Friends` (friends.dfy): the record. The `IFriend` and `IEditFriend` interfaces are shape predicates over it. Every key is optional, because at run time a JavaScript object may lack any key.
- `Schema` (schema.dfy): `USER_INPUT_SCHEMA`. `Valid` gives its meaning key by key. `Validate` reproduces the validator: it reports the first rule broken, taking the declared keys in order and then the undeclared keys.
- `Bcrypt` (bcrypt.dfy): the password hasher as an abstract collaborator. `Sound` says that a hash is 60 characters long and compares equal to the plaintext it was made from.
- `Collection` (collection.dfy): the operations of the document collection that the facade uses (`findOne`, `updateOne` with upsert, `deleteOne`, `$set`), written as functions over a sequence of documents kept in natural order, plus lemmas about them.
- `FriendFacade` (friend_facade.dfy): the class `FriendsFacade`. The collection is a `seq<Document>` field. Its methods change that field; its queries are functions that read it. `Valid()` is the invariant the methods keep: the hasher is sound, the `_id`s are unique and fresh, and every stored password is a hash.
- `FriendScenarios` (scenarios.dfy): the round trips callers can rely on, and the scenarios of `test/friendFacadeTest.ts` on the four-record seed. All of them are proved from the facade's contracts alone.

Collaborators become parameters:

- Joi's e-mail grammar becomes the facade's `emailOk: string -> bool`.
- bcrypt becomes the facade's `hasher`. The random salt is an argument of each call that hashes.
- The store's fresh `_id`s come from a counter, `nextId`.
- The database handle becomes the initial contents of the collection, given to the constructor.

Where the code behaves differently from what its comments or a first reading suggest, the model follows the code:

- `addFriend` on a record that passes the schema but has no password fails inside the hasher ("Illegal arguments"), not with an `ApiError`. The schema makes the password optional.
- `getFrind` returns null for an unknown email. It does not throw, even though its doc comment says it does.
- `editFriend` reports a modified count of 1 only when the matched record actually changed. It reports 0 for an unchanged match and 0 for an upsert-insert.
- An upsert whose payload has no password stores a record without a password. `getVerifiedUser` on that record fails inside the hasher.
- "Add, then fetch by email, then verify" holds only for an email that is not already stored (`AddThenVerify`). With a duplicate email the fetch returns the older record (`AddDuplicateIsShadowed`).

## Model

| member | source | states |
|---|---|---|
| `Schema.Validate` | src/facades/friendFacade.ts:10-15 | The validator reports no error exactly when: firstName has 2..40 characters, lastName has 2..50, a password (if present) has 4..30, the email is non-empty and well formed, and neither id nor role is present. Any error it reports is a real fault of the record. A record with a role always fails. |
| `Schema.ValidShape` | src/interfaces/IFriend.ts:1-17 | A record that passes the schema has the IEditFriend shape and carries no id or role. With a password it has the IFriend shape, and the password is non-empty (truthy). |
| `Schema.RoleRejected` | test/friendFacadeTest.ts:48-56 | A record carrying a role is never valid. When the role is its only fault, the error names the role as not allowed. |
| `Bcrypt.HashIsNotPlaintext` | src/facades/friendFacade.ts:36-37 | The hash of a password the schema admits differs from the plaintext and verifies against it. |
| `Collection.FirstMatch` | src/facades/friendFacade.ts:87 | `findOne({email})` selects the first document with that email, and none when no document has it. |
| `Collection.SetFields` | src/facades/friendFacade.ts:59 | `$set` overwrites exactly the keys present in the payload and keeps every other key. |
| `Collection.UpdateOneUpsert` | src/facades/friendFacade.ts:59 | If some document matches, the first match gets `$set` in place: same `_id`, same position, every other document untouched, modified count 1 iff it changed. If none matches, one document built from the filter and the payload is appended under a fresh `_id`, with modified count 0 and upserted count 1. |
| `Collection.DeleteOne` | src/facades/friendFacade.ts:70 | Deleted count is 1 iff some document matches. Then exactly the first match is removed and the order of the rest is kept. Otherwise nothing changes. |
| `Collection.DeleteOneCount` | src/facades/friendFacade.ts:69-72 | Deleting by email removes exactly one document with that email when there is one, and no document with any other email. |
| `Collection.DeleteTwice` | src/facades/friendFacade.ts:69-72 | With a single record for an email, the first delete deletes it and a second delete finds nothing. |
| `Collection.FirstMatchAppend` | src/facades/friendFacade.ts:36-40 | After an insert, `findOne` still returns an earlier match if one exists. It returns the new document only when the email was new. |
| `Collection.UpsertThenFind` | src/facades/friendFacade.ts:54-61 | After an upsert whose payload keeps the lookup email, `findOne` by that email returns a document carrying every key of the payload: the updated one in place, or the inserted one at the end. |
| `FriendFacade.FriendsFacade.constructor` | src/facades/friendFacade.ts:21-24 | The facade opens on the existing collection unchanged and establishes the invariant. |
| `FriendFacade.FriendsFacade.AddFriend` | src/facades/friendFacade.ts:31-41 | An invalid record fails with status 400 and leaves the state unchanged. A valid record without a password fails in the hasher and leaves the state unchanged. Otherwise exactly one document is appended: the record with its password hashed, under a fresh `_id` that is returned. Earlier documents are kept and the invariant holds. |
| `FriendFacade.FriendsFacade.EditFriend` | src/facades/friendFacade.ts:49-62 | An invalid payload fails with status 400 and writes nothing. Otherwise the payload, with its password hashed when present, is upserted under the email and the store's modified count is returned. The invariant holds. |
| `FriendFacade.FriendsFacade.DeleteFriend` | src/facades/friendFacade.ts:69-72 | Returns true iff some record has the email. The collection becomes the one with exactly that first record removed. |
| `FriendFacade.FriendsFacade.GetAllFriends` | src/facades/friendFacade.ts:74-77 | Returns every stored record in store order. Its length is the number of stored records. It reads only. |
| `FriendFacade.FriendsFacade.GetFrind` | src/facades/friendFacade.ts:79-89 | Returns the first record with the email, or null iff no record has it. It does not fail and reads only. |
| `FriendFacade.FriendsFacade.GetVerifiedUser` | src/facades/friendFacade.ts:91-103 | Returns the record iff a record with the email exists and the password compares equal to its stored hash. Returns null for an unknown email or a failed comparison. Fails in the hasher iff the found record has no password. It reads only. |
| `FriendScenarios.AddThenVerify` | src/facades/friendFacade.ts:36-40 | Adding under a new email, then fetching, returns the new record: same names, a stored password different from the plaintext. Verifying with the plaintext returns that record. |
| `FriendScenarios.AddDuplicateIsShadowed` | src/facades/friendFacade.ts:36-40 | Adding under an email already stored succeeds, but fetching by that email returns the earlier record, never the new one. |
| `FriendScenarios.EditMissingUpserts` | src/facades/friendFacade.ts:59-61 | Editing under an unknown email reports 0 modified, yet the record can then be fetched with the payload's names and email. |
| `FriendScenarios.DeleteTwiceReportsOnce` | src/facades/friendFacade.ts:69-72 | Deleting a record with a unique email reports true, then false, and the record is gone. |
| `FriendScenarios.AddThenDelete` | src/facades/friendFacade.ts:39-40 | Adding under a new email and deleting by it leaves the collection exactly as before. |
| `FriendScenarios.Seeded` | test/friendFacadeTest.ts:27-37 | A facade over the four seeded records, which share one hash of "secret", satisfies the invariant. |
| `FriendScenarios.TestAddJan` | test/friendFacadeTest.ts:40-46 | Adding Jan to the seed succeeds, and fetching jan@b.dk gives first name "Jan". |
| `FriendScenarios.TestAddWithRole` | test/friendFacadeTest.ts:48-56 | Adding Jan with a role fails with ApiError(role not allowed, 400). |
| `FriendScenarios.TestEditDonald` | test/friendFacadeTest.ts:60-67 | Editing dd@b.dk modifies one record. Fetching it gives last name "XXXX" and the stored role is kept. |
| `FriendScenarios.TestDelete` | test/friendFacadeTest.ts:71-80 | Deleting hh@hh.dk reports true and the record is gone. Deleting IDK@hh.dk reports false. |
| `FriendScenarios.TestGetAll` | test/friendFacadeTest.ts:84-87 | Listing the seed gives four records. |
| `FriendScenarios.TestGetFriend` | test/friendFacadeTest.ts:92-100 | Fetching dd@b.dk gives Donald Duck. Fetching xxx.@.b.dk gives null. |
| `FriendScenarios.TestVerify` | test/friendFacadeTest.ts:104-117 | Jens verifies with "secret". A wrong password gives null, given the hasher's collision resistance for it. An unknown email gives null. |

## Left out

- The MongoDB connection and `db.collection("friends")` wiring (src/facades/friendFacade.ts:21-24) are not modelled. The constructor receives the collection's current contents instead.
- The in-memory test database connector and the test harness are left out.
- Filters other than `{ email }`, other update operators and other collection methods are left out, because the facade never uses them.
- Storage faults (connectivity, timeouts) are not modelled. They propagate unchanged in the source.
- `async`/`await` and promises are left out, because each call is modelled as one atomic step. So are concurrent calls, including two concurrent `addFriend` calls that could create duplicates.
- bcrypt's algorithm, its cost factor `BCRYPT_ROUNDS` and salt generation are left out. The hasher is abstract, and the salt is a parameter of every call that hashes.
- Joi's e-mail grammar is left out; the facade holds it as the parameter `emailOk`.
- Joi measures string length in UTF-16 code units. The model counts Dafny characters, and the two differ only for characters outside the Basic Multilingual Plane.
- Joi's error message text is not modelled. Its content is modelled as the structured `Violation` it describes.
- A record here has only the six keys of the interfaces. An undeclared key outside `id` and `role` would be rejected the same way. The model checks `id` before `role`, whereas Joi follows the object's key order.
- A key present with the value `undefined` is treated like an absent key. The MongoDB driver may store it as null.
- MongoDB's ObjectId generation is modelled as a counter that only grows, which is enough to make every new `_id` fresh.
- The body of the `ApiError` class is not part of this model. It becomes `FacadeError.ApiError(message, status)`.
- The unused import of `DummyDB-Facade` (src/facades/friendFacade.ts:6) is left out.
- FriendFacade.FriendsFacade.GetVerifiedUser: its contract does not promise that a wrong password yields null. That depends on the hasher's `compare` rejecting it, which the abstract hasher does not guarantee. `TestVerify` takes it as a premise for the one wrong password it uses.
