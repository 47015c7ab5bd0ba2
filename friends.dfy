/**
 * The friend record (src/interfaces/IFriend.ts).  At run time a record is a
 * JavaScript object whose keys may be missing whatever its static type says,
 * so every key is optional here; the two interfaces become shape predicates.
 */
module Friends {
  import opened Wrappers

  /** The keys a friend record can carry. */
  datatype Key = Id | FirstName | LastName | Email | Password | Role

  datatype Friend = Friend(
    id: Option<string>,
    firstName: Option<string>,
    lastName: Option<string>,
    email: Option<string>,
    password: Option<string>,
    role: Option<string>)
  {
    /** The value stored under key `k`, if any. */
    function Get(k: Key): Option<string>
    {
      match k
      case Id => id
      case FirstName => firstName
      case LastName => lastName
      case Email => email
      case Password => password
      case Role => role
    }
  }

  /** The record with no keys at all. */
  const NoKeys: Friend := Friend(None, None, None, None, None, None)

  /** The shape of `IFriend`: names, email and password present; id and role optional. */
  predicate IsFriend(f: Friend)
  {
    f.firstName.Some? && f.lastName.Some? && f.email.Some? && f.password.Some?
  }

  /** The shape of `IEditFriend`: as `IFriend`, but the password is optional too. */
  predicate IsEditFriend(f: Friend)
  {
    f.firstName.Some? && f.lastName.Some? && f.email.Some?
  }
}
