/**
 * FriendsFacade (src/facades/friendFacade.ts): validates a friend record,
 * replaces a plaintext password by its hash, and adds, edits, deletes, lists,
 * fetches and verifies records of one collection addressed by email.  Each
 * call is one atomic step on the collection.
 */
module FriendFacade {
  import opened Wrappers
  import opened Friends
  import opened Schema
  import opened Bcrypt
  import opened Collection

  /** HTTP status of a client error. */
  const BadRequest: nat := 400

  /** How a facade call fails. */
  datatype FacadeError =
    /** `ApiError(message, status)`: the validator's complaint and a status. */
    | ApiError(message: Violation, status: nat)
    /** The hasher's "Illegal arguments" error: it was handed no string. */
    | IllegalArguments

  /** A stored password is absent or a hash, never plaintext. */
  ghost predicate StoredPassword(h: Hasher, pw: Option<string>)
  {
    pw.None? || IsHash(h, pw.value)
  }

  class FriendsFacade {
    /** The "friends" collection, in natural order. */
    var friendCollection: seq<Document>
    /** The store's source of fresh `_id`s: above every `_id` ever issued. */
    var nextId: ObjectId
    /** The password hasher. */
    const hasher: Hasher
    /** Joi's `.email()` check. */
    const emailOk: string -> bool

    /**
     * The facade's invariant: the hasher is sound, `_id`s are unique and below
     * `nextId`, and every stored password is a hash.
     */
    ghost predicate Valid()
      reads this
    {
      && Sound(hasher)
      && DistinctIds(friendCollection)
      && (forall j :: 0 <= j < |friendCollection| ==> friendCollection[j].oid < nextId)
      && (forall j :: 0 <= j < |friendCollection| ==> StoredPassword(hasher, friendCollection[j].body.password))
    }

    /** Opens the facade on a collection that may already hold documents. */
    constructor (existing: seq<Document>, hasher: Hasher, emailOk: string -> bool)
      requires Sound(hasher)
      requires DistinctIds(existing)
      requires forall j :: 0 <= j < |existing| ==> StoredPassword(hasher, existing[j].body.password)
      ensures Valid()
      ensures friendCollection == existing
      ensures this.hasher == hasher && this.emailOk == emailOk
    {
      friendCollection := existing;
      nextId := IdAbove(existing);
      this.hasher := hasher;
      this.emailOk := emailOk;
    }

    /** `f` with its password, if any, replaced by the hash made with `salt`. */
    function WithHashedPassword(f: Friend, salt: Salt): Friend
    {
      if f.password.Some? then f.(password := Some(hasher.hash(salt, f.password.value))) else f
    }

    /**
     * `addFriend`: a record the schema refuses fails with status 400; one
     * without a password makes the hasher fail; otherwise exactly one document
     * is appended, equal to the record but for the hashed password, under a
     * fresh `_id` that is returned.  No check for an existing email is made.
     */
    method AddFriend(friend: Friend, salt: Salt) returns (r: Result<ObjectId, FacadeError>)
      requires Valid()
      modifies this
      ensures Valid()
      ensures !Schema.Valid(friend, emailOk) ==>
        r == Err(ApiError(Validate(friend, emailOk).value, BadRequest)) && unchanged(this)
      ensures Schema.Valid(friend, emailOk) && friend.password.None? ==>
        r == Err(IllegalArguments) && unchanged(this)
      ensures Schema.Valid(friend, emailOk) && friend.password.Some? ==>
        && r == Ok(old(nextId))
        && friendCollection == old(friendCollection) + [Document(r.value, WithHashedPassword(friend, salt))]
      ensures r.Ok? ==> forall j :: 0 <= j < |old(friendCollection)| ==> old(friendCollection)[j].oid != r.value
    {
      var status := Validate(friend, emailOk);
      if status.Some? {
        return Err(ApiError(status.value, BadRequest));
      }
      if friend.password.None? {
        return Err(IllegalArguments);
      }
      var hashedpw := hasher.hash(salt, friend.password.value);
      HashIsNotPlaintext(hasher, salt, friend.password.value);
      var f := friend.(password := Some(hashedpw));
      friendCollection := friendCollection + [Document(nextId, f)];
      r := Ok(nextId);
      nextId := nextId + 1;
    }

    /**
     * `editFriend`: a payload the schema refuses fails with status 400 and
     * writes nothing.  Otherwise the payload, its password hashed if it has
     * one, is upserted under `{ email: email }`; the result is the store's
     * modified count, which is 0 when a new document was inserted.
     */
    method EditFriend(email: string, friend: Friend, salt: Salt) returns (r: Result<nat, FacadeError>)
      requires Valid()
      modifies this
      ensures Valid()
      ensures !Schema.Valid(friend, emailOk) ==>
        r == Err(ApiError(Validate(friend, emailOk).value, BadRequest)) && unchanged(this)
      ensures Schema.Valid(friend, emailOk) ==>
        var u := UpdateOneUpsert(old(friendCollection), email, WithHashedPassword(friend, salt), old(nextId));
        && r == Ok(u.modifiedCount)
        && friendCollection == u.docs
        && nextId == old(nextId) + u.upsertedCount
    {
      var status := Validate(friend, emailOk);
      var f := friend;
      if status.Some? {
        return Err(ApiError(status.value, BadRequest));
      } else if friend.password.Some? && friend.password.value != "" {
        var hashedpw := hasher.hash(salt, friend.password.value);
        HashIsNotPlaintext(hasher, salt, friend.password.value);
        f := friend.(password := Some(hashedpw));
      }
      ValidShape(friend, emailOk);
      assert f == WithHashedPassword(friend, salt);
      var res := UpdateOneUpsert(friendCollection, email, f, nextId);
      friendCollection := res.docs;
      nextId := nextId + res.upsertedCount;
      r := Ok(res.modifiedCount);
    }

    /**
     * `deleteFriend`: true exactly when some document has the email; then the
     * first such document, and only it, is removed.
     */
    method DeleteFriend(friendEmail: string) returns (deleted: bool)
      requires Valid()
      modifies this
      ensures Valid()
      ensures deleted <==> Contains(old(friendCollection), friendEmail)
      ensures friendCollection == DeleteOne(old(friendCollection), friendEmail).docs
      ensures nextId == old(nextId)
    {
      var res := DeleteOne(friendCollection, friendEmail);
      friendCollection := res.docs;
      deleted := res.deletedCount == 1;
    }

    /** `getAllFriends`: every stored document, in the store's order. */
    function GetAllFriends(): (r: seq<Document>)
      reads this
      ensures |r| == |friendCollection|
      ensures forall j :: 0 <= j < |r| ==> r[j] == friendCollection[j]
    {
      friendCollection
    }

    /**
     * `getFrind` (sic): the first document with the email, or null when there
     * is none; a missing record is not an error.
     */
    function GetFrind(friendEmail: string): (r: Option<Document>)
      reads this
      ensures r.None? <==> !Contains(friendCollection, friendEmail)
      ensures r.Some? ==>
        exists i :: 0 <= i < |friendCollection| && friendCollection[i] == r.value
          && HasEmail(r.value, friendEmail)
          && forall j :: 0 <= j < i ==> !HasEmail(friendCollection[j], friendEmail)
    {
      match FirstMatch(friendCollection, friendEmail)
      case Some(i) => Some(friendCollection[i])
      case None => None
    }

    /**
     * `getVerifiedUser`: the document found for the email when the password
     * compares equal to its stored hash, null when there is no such document
     * or the comparison fails.  A document stored without a password makes the
     * hasher fail.
     */
    function GetVerifiedUser(friendEmail: string, password: string): (r: Result<Option<Document>, FacadeError>)
      reads this
      ensures r.Err? <==> GetFrind(friendEmail).Some? && GetFrind(friendEmail).value.body.password.None?
      ensures r.Err? ==> r.error == IllegalArguments
      ensures (r.Ok? && r.value.Some?) <==>
        && GetFrind(friendEmail).Some?
        && GetFrind(friendEmail).value.body.password.Some?
        && hasher.compare(password, GetFrind(friendEmail).value.body.password.value)
      ensures r.Ok? && r.value.Some? ==> r.value == GetFrind(friendEmail)
    {
      match FirstMatch(friendCollection, friendEmail)
      case None => Ok(None)
      case Some(i) =>
        var friend := friendCollection[i];
        match friend.body.password
        case None => Err(IllegalArguments)
        case Some(stored) => if hasher.compare(password, stored) then Ok(Some(friend)) else Ok(None)
    }
  }
}
