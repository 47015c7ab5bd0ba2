/**
 * What callers can rely on, derived from the facade's contracts alone: the
 * round trips of the facade's design (add then verify, upsert then fetch,
 * delete twice, add then delete) and the scenarios of test/friendFacadeTest.ts
 * run against the four-record seed.
 */
module FriendScenarios {
  import opened Wrappers
  import opened Friends
  import opened Schema
  import opened Bcrypt
  import opened Collection
  import opened FriendFacade

  /**
   * Adding a valid record under an email not yet stored, then fetching it by
   * email, returns the new record; its stored password is not the plaintext,
   * and verifying with the plaintext returns that record.
   */
  method AddThenVerify(facade: FriendsFacade, friend: Friend, salt: Salt)
      returns (id: Result<ObjectId, FacadeError>, found: Option<Document>, verified: Result<Option<Document>, FacadeError>)
    requires facade.Valid()
    requires Schema.Valid(friend, facade.emailOk) && friend.password.Some?
    requires !Contains(facade.friendCollection, friend.email.value)
    modifies facade
    ensures facade.Valid()
    ensures id.Ok? && found.Some? && found.value.oid == id.value
    ensures found.value.body.firstName == friend.firstName && found.value.body.lastName == friend.lastName
    ensures found.value.body.password.Some? && found.value.body.password != friend.password
    ensures verified == Ok(found)
  {
    var e, p := friend.email.value, friend.password.value;
    ghost var before := facade.friendCollection;
    id := facade.AddFriend(friend, salt);
    FirstMatchAppend(before, Document(id.value, facade.WithHashedPassword(friend, salt)), e);
    HashIsNotPlaintext(facade.hasher, salt, p);
    found := facade.GetFrind(e);
    verified := facade.GetVerifiedUser(e, p);
  }

  /**
   * Adding a record under an email that is already stored succeeds (the
   * facade does not enforce unique emails), yet fetching by that email still
   * returns the earlier record and never the one just added.
   */
  method AddDuplicateIsShadowed(facade: FriendsFacade, friend: Friend, salt: Salt)
      returns (id: Result<ObjectId, FacadeError>, found: Option<Document>)
    requires facade.Valid()
    requires Schema.Valid(friend, facade.emailOk) && friend.password.Some?
    requires Contains(facade.friendCollection, friend.email.value)
    modifies facade
    ensures facade.Valid()
    ensures id.Ok? && found.Some? && found.value.oid != id.value
    ensures found == Some(old(facade.friendCollection)[FirstMatch(old(facade.friendCollection), friend.email.value).value])
  {
    var e := friend.email.value;
    ghost var before := facade.friendCollection;
    id := facade.AddFriend(friend, salt);
    FirstMatchAppend(before, Document(id.value, facade.WithHashedPassword(friend, salt)), e);
    found := facade.GetFrind(e);
  }

  /**
   * Editing under an email nobody has inserts the record (upsert): the
   * reported modified count is 0, yet fetching by the email finds a record
   * with the payload's names.
   */
  method EditMissingUpserts(facade: FriendsFacade, friend: Friend, salt: Salt)
      returns (count: Result<nat, FacadeError>, found: Option<Document>)
    requires facade.Valid()
    requires Schema.Valid(friend, facade.emailOk)
    requires !Contains(facade.friendCollection, friend.email.value)
    modifies facade
    ensures facade.Valid()
    ensures count == Ok(0)
    ensures found.Some?
    ensures found.value.body.firstName == friend.firstName && found.value.body.lastName == friend.lastName
    ensures found.value.body.email == friend.email
  {
    var e := friend.email.value;
    ghost var before := facade.friendCollection;
    ghost var patch := facade.WithHashedPassword(friend, salt);
    count := facade.EditFriend(e, friend, salt);
    UpsertThenFind(before, e, patch, old(facade.nextId));
    assert patch.Get(FirstName) == friend.firstName && patch.Get(LastName) == friend.lastName;
    found := facade.GetFrind(e);
  }

  /**
   * With a single record for an email, the first delete reports true and the
   * second false, and the record is gone.
   */
  method DeleteTwiceReportsOnce(facade: FriendsFacade, e: string)
      returns (first: bool, second: bool, found: Option<Document>)
    requires facade.Valid()
    requires Count(facade.friendCollection, e) == 1
    modifies facade
    ensures facade.Valid()
    ensures first && !second && found.None?
    ensures |facade.friendCollection| == |old(facade.friendCollection)| - 1
  {
    DeleteTwice(facade.friendCollection, e);
    first := facade.DeleteFriend(e);
    second := facade.DeleteFriend(e);
    found := facade.GetFrind(e);
  }

  /**
   * Adding a record under a fresh email and then deleting by that email
   * leaves the collection exactly as it was.
   */
  method AddThenDelete(facade: FriendsFacade, friend: Friend, salt: Salt)
      returns (deleted: bool)
    requires facade.Valid()
    requires Schema.Valid(friend, facade.emailOk) && friend.password.Some?
    requires !Contains(facade.friendCollection, friend.email.value)
    modifies facade
    ensures facade.Valid()
    ensures deleted
    ensures facade.friendCollection == old(facade.friendCollection)
  {
    var e := friend.email.value;
    ghost var before := facade.friendCollection;
    var id := facade.AddFriend(friend, salt);
    FirstMatchAppend(before, Document(id.value, facade.WithHashedPassword(friend, salt)), e);
    deleted := facade.DeleteFriend(e);
    assert facade.friendCollection == before;
  }

  /** The four records every test starts from, sharing one hash of "secret";
    * the `_id`s 0 to 3 stand for the ones the store assigns. */
  function SeedDocs(h: Hasher, salt: Salt): seq<Document>
  {
    var pw := Some(h.hash(salt, "secret"));
    [ Document(0, Friend(None, Some("Anders"), Some("And"), Some("AndAnders@anden.and"), pw, Some("user"))),
      Document(1, Friend(None, Some("Donald"), Some("Duck"), Some("dd@b.dk"), pw, Some("user"))),
      Document(2, Friend(None, Some("Jens"), Some("Jenssen"), Some("jj@j.dk"), pw, Some("user"))),
      Document(3, Friend(None, Some("Hans"), Some("Hansen"), Some("hh@hh.dk"), pw, Some("user"))) ]
  }

  /** Where the tests' emails are found in the seed. */
  lemma SeedLookups(h: Hasher, salt: Salt)
    ensures FirstMatch(SeedDocs(h, salt), "dd@b.dk") == Some(1)
    ensures FirstMatch(SeedDocs(h, salt), "jj@j.dk") == Some(2)
    ensures FirstMatch(SeedDocs(h, salt), "hh@hh.dk") == Some(3) && Count(SeedDocs(h, salt), "hh@hh.dk") == 1
    ensures !Contains(SeedDocs(h, salt), "jan@b.dk")
    ensures !Contains(SeedDocs(h, salt), "xxx.@.b.dk")
    ensures !Contains(SeedDocs(h, salt), "IDK@hh.dk")
    ensures !Contains(SeedDocs(h, salt), "idk@j.dk")
  {
    var s := SeedDocs(h, salt);
    assert HasEmail(s[1], "dd@b.dk") && HasEmail(s[2], "jj@j.dk") && HasEmail(s[3], "hh@hh.dk");
    assert s[1..][1..][1..][1..] == [];
    assert Count(s[1..][1..][1..], "hh@hh.dk") == 1;
    assert Count(s[1..][1..], "hh@hh.dk") == 1;
  }

  /** A facade over the seeded collection. */
  method Seeded(h: Hasher, emailOk: string -> bool, salt: Salt) returns (facade: FriendsFacade)
    requires Sound(h)
    ensures fresh(facade) && facade.Valid()
    ensures facade.friendCollection == SeedDocs(h, salt)
    ensures facade.hasher == h && facade.emailOk == emailOk
  {
    HashIsNotPlaintext(h, salt, "secret");
    facade := new FriendsFacade(SeedDocs(h, salt), h, emailOk);
  }

  /** "It should Add the user Jan". */
  method TestAddJan(h: Hasher, emailOk: string -> bool, seedSalt: Salt, salt: Salt)
      returns (status: Result<ObjectId, FacadeError>, jan: Option<Document>)
    requires Sound(h) && emailOk("jan@b.dk")
    ensures status.Ok?
    ensures jan.Some? && jan.value.body.firstName == Some("Jan")
  {
    var facade := Seeded(h, emailOk, seedSalt);
    var newFriend := Friend(None, Some("Jan"), Some("Olsen"), Some("jan@b.dk"), Some("secret"), None);
    SeedLookups(h, seedSalt);
    var verified;
    status, jan, verified := AddThenVerify(facade, newFriend, salt);
  }

  /** "It should not add a user with a role (validation fails)". */
  method TestAddWithRole(h: Hasher, emailOk: string -> bool, seedSalt: Salt, salt: Salt)
      returns (status: Result<ObjectId, FacadeError>)
    requires Sound(h) && emailOk("jan@b.dk")
    ensures status == Err(ApiError(NotAllowed(Role), 400))
  {
    var facade := Seeded(h, emailOk, seedSalt);
    var newFriend := Friend(None, Some("Jan"), Some("Olsen"), Some("jan@b.dk"), Some("secret"), Some("admin"));
    RoleRejected(newFriend, emailOk);
    status := facade.AddFriend(newFriend, salt);
  }

  /** "It should change lastName to XXXX". */
  method TestEditDonald(h: Hasher, emailOk: string -> bool, seedSalt: Salt, salt: Salt)
      returns (count: Result<nat, FacadeError>, donald: Option<Document>)
    requires Sound(h) && emailOk("dd@b.dk")
    ensures count == Ok(1)
    ensures donald.Some? && donald.value.body.lastName == Some("XXXX")
    ensures donald.value.body.role == Some("user")
  {
    var facade := Seeded(h, emailOk, seedSalt);
    SeedLookups(h, seedSalt);
    var user := Friend(None, Some("Donald"), Some("XXXX"), Some("dd@b.dk"), Some("secret"), None);
    ghost var before := facade.friendCollection;
    count := facade.EditFriend("dd@b.dk", user, salt);
    UpsertThenFind(before, "dd@b.dk", facade.WithHashedPassword(user, salt), 4);
    donald := facade.GetFrind("dd@b.dk");
  }

  /** "It should remove the user Peter" and "It should return false, for a
    * user that does not exist". */
  method TestDelete(h: Hasher, emailOk: string -> bool, seedSalt: Salt)
      returns (hans: bool, hansAfter: Option<Document>, unknown: bool)
    requires Sound(h)
    ensures hans && hansAfter.None? && !unknown
  {
    var facade := Seeded(h, emailOk, seedSalt);
    SeedLookups(h, seedSalt);
    hans := facade.DeleteFriend("hh@hh.dk");
    hansAfter := facade.GetFrind("hh@hh.dk");
    unknown := facade.DeleteFriend("IDK@hh.dk");
  }

  /** "It should get two friends" (there are four). */
  method TestGetAll(h: Hasher, emailOk: string -> bool, seedSalt: Salt) returns (friends: seq<Document>)
    requires Sound(h)
    ensures |friends| == 4
  {
    var facade := Seeded(h, emailOk, seedSalt);
    friends := facade.GetAllFriends();
  }

  /** "It should find Donald Duck" and "It should not find xxx.@.b.dk". */
  method TestGetFriend(h: Hasher, emailOk: string -> bool, seedSalt: Salt)
      returns (donald: Option<Document>, nobody: Option<Document>)
    requires Sound(h)
    ensures donald.Some? && donald.value.body.firstName == Some("Donald")
    ensures donald.value.body.lastName == Some("Duck")
    ensures nobody.None?
  {
    var facade := Seeded(h, emailOk, seedSalt);
    SeedLookups(h, seedSalt);
    donald := facade.GetFrind("dd@b.dk");
    nobody := facade.GetFrind("xxx.@.b.dk");
  }

  /**
   * The three getVerifiedUser tests.  That "idkXD" fails against the hash of
   * "secret" is the hasher's collision resistance, taken as a premise.
   */
  method TestVerify(h: Hasher, emailOk: string -> bool, seedSalt: Salt)
      returns (right: Result<Option<Document>, FacadeError>, wrong: Result<Option<Document>, FacadeError>,
               unknown: Result<Option<Document>, FacadeError>)
    requires Sound(h)
    requires !h.compare("idkXD", h.hash(seedSalt, "secret"))
    ensures right.Ok? && right.value.Some? && right.value.value.body.email == Some("jj@j.dk")
    ensures wrong == Ok(None)
    ensures unknown == Ok(None)
  {
    var facade := Seeded(h, emailOk, seedSalt);
    SeedLookups(h, seedSalt);
    right := facade.GetVerifiedUser("jj@j.dk", "secret");
    wrong := facade.GetVerifiedUser("jj@j.dk", "idkXD");
    unknown := facade.GetVerifiedUser("idk@j.dk", "secret");
  }
}
