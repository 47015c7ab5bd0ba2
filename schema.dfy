/**
 * USER_INPUT_SCHEMA of src/facades/friendFacade.ts: a Joi object schema with
 * four string keys.  Joi rejects the empty string for a string key, applies a
 * key's rules in the order written, checks the schema's keys in the order
 * declared and only then complains about keys the schema does not name, and
 * stops at the first error.  Joi's e-mail grammar is not modelled: it is the
 * parameter `emailOk`.
 */
module Schema {
  import opened Wrappers
  import opened Friends

  /** What the validator reports as its error message. */
  datatype Violation =
    | Required(key: Key)
    | Empty(key: Key)
    | TooShort(key: Key, limit: nat)
    | TooLong(key: Key, limit: nat)
    | InvalidEmail
    | NotAllowed(key: Key)

  /** The keys the schema declares; every other key is rejected. */
  predicate Declared(k: Key)
  {
    k == FirstName || k == LastName || k == Password || k == Email
  }

  /** The keys marked `.required()`. */
  predicate Mandatory(k: Key)
  {
    k == FirstName || k == LastName || k == Email
  }

  /** `.min(n)` of the string keys (0 where none is given). */
  function MinLength(k: Key): nat
  {
    match k
    case FirstName => 2
    case LastName => 2
    case Password => 4
    case _ => 0
  }

  /** `.max(n)` of the string keys (0 where none is given). */
  function MaxLength(k: Key): nat
  {
    match k
    case FirstName => 40
    case LastName => 50
    case Password => 30
    case _ => 0
  }

  /** A present value whose length lies within [min, max]. */
  predicate InBounds(v: Option<string>, min: nat, max: nat)
  {
    v.Some? && min <= |v.value| <= max
  }

  /**
   * The meaning of the schema, stated key by key: both names within their
   * bounds, an optional password within its bounds, a non-empty well-formed
   * email, and neither `id` nor `role` present.
   */
  predicate Valid(f: Friend, emailOk: string -> bool)
  {
    && InBounds(f.firstName, 2, 40)
    && InBounds(f.lastName, 2, 50)
    && (f.password.None? || InBounds(f.password, 4, 30))
    && f.email.Some? && f.email.value != "" && emailOk(f.email.value)
    && f.id.None?
    && f.role.None?
  }

  /** `v` is a genuine complaint about `f`. */
  predicate Violates(f: Friend, emailOk: string -> bool, v: Violation)
  {
    match v
    case Required(k) => Mandatory(k) && f.Get(k).None?
    case Empty(k) => Declared(k) && f.Get(k) == Some("")
    case TooShort(k, n) =>
      k != Email && Declared(k) && n == MinLength(k) && f.Get(k).Some? && |f.Get(k).value| < n
    case TooLong(k, n) =>
      k != Email && Declared(k) && n == MaxLength(k) && f.Get(k).Some? && |f.Get(k).value| > n
    case InvalidEmail => f.email.Some? && !emailOk(f.email.value)
    case NotAllowed(k) => !Declared(k) && f.Get(k).Some?
  }

  /** `Joi.string().min(min).max(max)`, with `.required()` when `required`. */
  function CheckString(k: Key, v: Option<string>, required: bool, min: nat, max: nat): Option<Violation>
  {
    match v
    case None => if required then Some(Required(k)) else None
    case Some(s) =>
      if s == "" then Some(Empty(k))
      else if |s| < min then Some(TooShort(k, min))
      else if |s| > max then Some(TooLong(k, max))
      else None
  }

  /** `Joi.string().email().required()`. */
  function CheckEmail(v: Option<string>, emailOk: string -> bool): Option<Violation>
  {
    match v
    case None => Some(Required(Email))
    case Some(s) =>
      if s == "" then Some(Empty(Email))
      else if !emailOk(s) then Some(InvalidEmail)
      else None
  }

  /** A key the schema does not declare. */
  function CheckUnknown(k: Key, v: Option<string>): Option<Violation>
  {
    if v.Some? then Some(NotAllowed(k)) else None
  }

  /** The first of two checks that fails. */
  function FirstOf(a: Option<Violation>, b: Option<Violation>): Option<Violation>
  {
    if a.Some? then a else b
  }

  /**
   * `USER_INPUT_SCHEMA.validate(f).error`: no error exactly for the records
   * the schema describes, and an error that names a real fault otherwise.
   */
  function Validate(f: Friend, emailOk: string -> bool): (r: Option<Violation>)
    ensures r.None? <==> Valid(f, emailOk)
    ensures r.Some? ==> Violates(f, emailOk, r.value)
    ensures f.role.Some? ==> r.Some?
  {
    FirstOf(CheckString(FirstName, f.firstName, true, 2, 40),
    FirstOf(CheckString(LastName, f.lastName, true, 2, 50),
    FirstOf(CheckString(Password, f.password, false, 4, 30),
    FirstOf(CheckEmail(f.email, emailOk),
    FirstOf(CheckUnknown(Id, f.id), CheckUnknown(Role, f.role))))))
  }

  /**
   * A record that passes the schema has the `IEditFriend` shape and carries
   * neither `id` nor `role`; with a password it has the `IFriend` shape, and a
   * password it carries is never empty (so it is truthy in JavaScript).
   */
  lemma ValidShape(f: Friend, emailOk: string -> bool)
    requires Valid(f, emailOk)
    ensures IsEditFriend(f) && f.id.None? && f.role.None?
    ensures f.password.Some? ==> IsFriend(f) && f.password.value != ""
  {
  }

  /** Any record carrying a role is refused, and the complaint names the role
    * when nothing else is wrong with it. */
  lemma RoleRejected(f: Friend, emailOk: string -> bool)
    requires f.role.Some?
    ensures !Valid(f, emailOk)
    ensures Valid(f.(role := None), emailOk) ==> Validate(f, emailOk) == Some(NotAllowed(Role))
  {
  }
}
