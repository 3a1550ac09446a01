/**
 * The User model: its schema constraints, the `changedPasswordAfter` method,
 * the pre-save hook that hashes a modified password, the default projection
 * that hides the password, and the collection the users are stored in.
 * bcrypt and `validator.isEmail` are parameters.
 */
module UserModel {
  import opened Wrappers
  import opened Js
  import opened Query
  import opened Http

  /** `bcrypt.hash(plain, cost)`. */
  type Hasher = (string, nat) -> string
  /** `bcrypt.compare(plain, hash)`, the body of `correctPassword`. */
  type Comparer = (string, string) -> bool
  /** `validator.isEmail`. */
  type EmailCheck = string -> bool

  /** The bcrypt cost the pre-save hook uses. */
  const HashCost: nat := 12
  const MinPasswordLength: nat := 8

  const NameRequired := "Please tell us your name"
  const EmailRequired := "An email address is required"
  const EmailInvalid := "Please provide a valid email address"
  const PasswordRequired := "A password is required"
  const PasswordTooShort := "Passwords must have at least 8 characters"
  const ConfirmRequired := "Please confirm your password"
  const PasswordsMustMatch := "Passwords must match"

  /** A user document; `undefined` paths are None. Dates are milliseconds since the epoch. */
  datatype User = User(
    id: string,
    name: Option<string>,
    email: Option<string>,
    photo: Option<string>,
    password: Option<string>,
    passwordConfirm: Option<string>,
    passwordChangedAt: Option<int>,
    passwordResetToken: Option<string>,
    passwordResetExpires: Option<int>)

  /**
   * Casting a new document. The email path has the `trim` setter; its
   * lower-casing option is spelled `lowecase`, which Mongoose does not know,
   * so no lower-casing takes place.
   */
  function ApplySetters(u: User): User
  {
    u.(email := MapOption(u.email, Trim))
  }

  /** Casting touches only the email, which is trimmed and keeps its case. */
  lemma SettersOnlyTrimEmail(u: User, e: string)
    requires u.email == Some(e)
    ensures ApplySetters(u) == u.(email := Some(Trim(e)))
    ensures e == [] || (!IsWhitespace(e[0]) && !IsWhitespace(e[|e| - 1])) ==> ApplySetters(u) == u
  {
    if e == [] || (!IsWhitespace(e[0]) && !IsWhitespace(e[|e| - 1])) {
      TrimKeepsTrimmed(e);
    }
  }

  /** Mongoose's `required` on a String path: present and not empty. */
  predicate Required(v: Option<string>)
  {
    Truthy(v)
  }

  /** The first failing validator of each path, `required` first, in schema order. */
  function NameErrors(u: User): seq<FieldError>
  {
    if !Required(u.name) then [FieldError("name", NameRequired)] else []
  }

  function EmailErrors(u: User, isEmail: EmailCheck): seq<FieldError>
  {
    if !Required(u.email) then [FieldError("email", EmailRequired)]
    else if !isEmail(u.email.value) then [FieldError("email", EmailInvalid)]
    else []
  }

  function PasswordErrors(u: User): seq<FieldError>
  {
    if !Required(u.password) then [FieldError("password", PasswordRequired)]
    else if |u.password.value| < MinPasswordLength then [FieldError("password", PasswordTooShort)]
    else []
  }

  /** `passwordConfirm` is valid only when it is `===` to the (plain) password. */
  function ConfirmErrors(u: User): seq<FieldError>
  {
    if !Required(u.passwordConfirm) then [FieldError("passwordConfirm", ConfirmRequired)]
    else if u.passwordConfirm != u.password then [FieldError("passwordConfirm", PasswordsMustMatch)]
    else []
  }

  /** What the schema demands of a document before it is saved. */
  predicate AcceptableNewUser(u: User, isEmail: EmailCheck)
  {
    && Required(u.name)
    && Required(u.email) && isEmail(u.email.value)
    && Required(u.password) && |u.password.value| >= MinPasswordLength
    && u.passwordConfirm == u.password
  }

  /** Validation on save: no errors exactly when the schema's demands are met. */
  function Validate(u: User, isEmail: EmailCheck): (errors: seq<FieldError>)
    ensures errors == [] <==> AcceptableNewUser(u, isEmail)
    ensures |errors| <= 4
    ensures forall e :: e in errors ==> e.path in {"name", "email", "password", "passwordConfirm"}
    ensures forall i, j :: 0 <= i < j < |errors| ==> errors[i].path != errors[j].path
  {
    NameErrors(u) + EmailErrors(u, isEmail) + PasswordErrors(u) + ConfirmErrors(u)
  }

  /** A confirmation that differs from the password is reported as "Passwords must match", and only then. */
  lemma ConfirmMismatchReported(u: User, isEmail: EmailCheck)
    ensures FieldError("passwordConfirm", PasswordsMustMatch) in Validate(u, isEmail)
        <==> Required(u.passwordConfirm) && u.passwordConfirm != u.password
  {
    var e := FieldError("passwordConfirm", PasswordsMustMatch);
    assert e !in NameErrors(u) && e !in EmailErrors(u, isEmail) && e !in PasswordErrors(u);
  }

  /** A password shorter than eight characters is reported as too short, and only then. */
  lemma ShortPasswordReported(u: User, isEmail: EmailCheck)
    ensures FieldError("password", PasswordTooShort) in Validate(u, isEmail)
        <==> Required(u.password) && |u.password.value| < MinPasswordLength
  {
    var e := FieldError("password", PasswordTooShort);
    assert e !in NameErrors(u) && e !in EmailErrors(u, isEmail) && e !in ConfirmErrors(u);
  }

  /** `parseInt(ms / 1000, 10)`: whole seconds, the fraction dropped toward zero. */
  function WholeSeconds(ms: int): int
  {
    if ms >= 0 then ms / 1000 else -((-ms) / 1000)
  }

  /** `changedPasswordAfter(timestamp)`: was the password changed in a later whole second? */
  function ChangedPasswordAfter(u: User, timestamp: int): bool
  {
    match u.passwordChangedAt
    case None => false
    case Some(ms) => timestamp < WholeSeconds(ms)
  }

  /** Without a recorded change, no timestamp is stale. */
  lemma NeverChangedNeverStale(u: User, timestamp: int)
    requires u.passwordChangedAt.None?
    ensures !ChangedPasswordAfter(u, timestamp)
  {
  }

  /**
   * For a change at ms >= 0 milliseconds, a timestamp is stale exactly when
   * the change happened at or after the start of the following second.
   */
  lemma ChangedAfterExactly(u: User, timestamp: int, ms: int)
    requires u.passwordChangedAt == Some(ms) && ms >= 0
    ensures ChangedPasswordAfter(u, timestamp) <==> (timestamp + 1) * 1000 <= ms
  {
    var q := ms / 1000;
    assert ms == 1000 * q + ms % 1000 && 0 <= ms % 1000 < 1000;
    assert (timestamp + 1) * 1000 == 1000 * timestamp + 1000;
    if timestamp < q {
      assert 1000 * (timestamp + 1) <= 1000 * q;
    } else {
      assert 1000 * q <= 1000 * timestamp;
    }
  }

  /** The comparison is strict: a token issued in the second of the change is not stale. */
  lemma SameSecondNotStale(u: User, timestamp: int, ms: int)
    requires u.passwordChangedAt == Some(ms) && ms >= 0
    requires timestamp * 1000 <= ms < (timestamp + 1) * 1000
    ensures !ChangedPasswordAfter(u, timestamp)
  {
    ChangedAfterExactly(u, timestamp, ms);
  }

  /** A timestamp earlier than a stale one is stale too. */
  lemma StaleIsDownwardClosed(u: User, earlier: int, later: int)
    requires earlier <= later
    ensures ChangedPasswordAfter(u, later) ==> ChangedPasswordAfter(u, earlier)
  {
  }

  /** The record the pre-save hook leaves when the password was modified. */
  function Hashed(u: User, hash: Hasher): User
    requires u.password.Some?
  {
    u.(password := Some(hash(u.password.value, HashCost)), passwordConfirm := None)
  }

  /** A document being saved, with Mongoose's record of whether `password` was modified. */
  class UserDocument {
    var data: User
    var passwordModified: bool

    constructor (data: User, passwordModified: bool)
      ensures this.data == data && this.passwordModified == passwordModified
    {
      this.data := data;
      this.passwordModified := passwordModified;
    }

    /**
     * The pre-save hook. It runs after validation, which has already refused
     * a document whose password is missing.
     */
    method PreSave(hash: Hasher)
      requires passwordModified ==> data.password.Some?
      modifies this
      ensures passwordModified == old(passwordModified)
      ensures !old(passwordModified) ==> data == old(data)
      ensures old(passwordModified) ==>
        data == old(data).(password := Some(hash(old(data).password.value, HashCost)), passwordConfirm := None)
    {
      if !passwordModified {
        return;
      }
      data := data.(password := Some(hash(data.password.value, HashCost)));
      data := data.(passwordConfirm := None);
    }
  }

  /** `select: false` on the password: a default query leaves it out. */
  function DefaultSelection(u: User): User
  {
    u.(password := None)
  }

  /** `User.findById(id)`: the first user with that id, without the password. */
  function FindById(users: seq<User>, id: string): (r: Option<User>)
    ensures r.None? <==> forall u :: u in users ==> u.id != id
    ensures r.Some? ==> r.value.id == id && r.value.password.None?
    ensures r.Some? ==> exists u :: u in users && u.id == id && r.value == DefaultSelection(u)
  {
    MapOption(FindOne(users, (u: User) => u.id == id), DefaultSelection)
  }

  /** `User.findOne({ email }).select('+password')`: the first user with that exact email, password included. */
  function FindByEmailWithPassword(users: seq<User>, email: string): (r: Option<User>)
    ensures r.None? <==> forall u :: u in users ==> u.email != Some(email)
    ensures r.Some? ==> r.value in users && r.value.email == Some(email)
  {
    FindOne(users, (u: User) => u.email == Some(email))
  }

  /** A stored user already has this id (the `_id` index). */
  predicate IdTaken(users: seq<User>, id: string)
  {
    exists u :: u in users && u.id == id
  }

  /** A stored user already has this exact email (the unique index on `email`). */
  predicate EmailTaken(users: seq<User>, email: Option<string>)
  {
    exists u :: u in users && u.email == email
  }

  /**
   * `User.create(fields)`: cast, validate, hash in the pre-save hook, then
   * insert unless a unique index refuses the document.
   */
  function Creation(users: seq<User>, fields: User, isEmail: EmailCheck, hash: Hasher): (r: Result<User, Error>)
    ensures r.Success? <==>
      AcceptableNewUser(ApplySetters(fields), isEmail) && !IdTaken(users, fields.id)
      && !EmailTaken(users, ApplySetters(fields).email)
    ensures r.Success? ==>
      && r.value.password == Some(hash(fields.password.value, HashCost))
      && r.value.passwordConfirm.None?
      && r.value.email == MapOption(fields.email, Trim)
      && r.value.(password := fields.password, passwordConfirm := fields.passwordConfirm, email := fields.email) == fields
    ensures Validate(ApplySetters(fields), isEmail) != [] ==> r == Failure(ValidationFailed(Validate(ApplySetters(fields), isEmail)))
  {
    var doc := ApplySetters(fields);
    var errors := Validate(doc, isEmail);
    if errors != [] then Failure(ValidationFailed(errors))
    else if IdTaken(users, doc.id) then Failure(DuplicateKey("_id"))
    else if EmailTaken(users, doc.email) then Failure(DuplicateKey("email"))
    else Success(Hashed(doc, hash))
  }

  /** No two users share an id, and no two share an email. */
  ghost predicate UniqueKeys(users: seq<User>)
  {
    && (forall i, j :: 0 <= i < j < |users| ==> users[i].id != users[j].id)
    && (forall i, j :: 0 <= i < j < |users| ==> users[i].email != users[j].email)
  }

  /** Inserting a user whose id and email are both free keeps the keys unique. */
  lemma InsertKeepsKeysUnique(users: seq<User>, u: User)
    requires UniqueKeys(users) && !IdTaken(users, u.id) && !EmailTaken(users, u.email)
    ensures UniqueKeys(users + [u])
  {
    var s := users + [u];
    forall i, j | 0 <= i < j < |s| ensures s[i].id != s[j].id && s[i].email != s[j].email {
      if j == |users| {
        assert s[i] in users;
      }
    }
  }

  /** The users collection, in natural order. */
  class UserCollection {
    var users: seq<User>

    /** The `_id` index and the unique index on `email` hold. */
    ghost predicate Valid()
      reads this
    {
      UniqueKeys(users)
    }

    constructor ()
      ensures users == [] && Valid()
    {
      users := [];
    }

    /** `User.create(fields)` on this collection. */
    method Create(fields: User, isEmail: EmailCheck, hash: Hasher) returns (r: Result<User, Error>)
      requires Valid()
      modifies this
      ensures Valid()
      ensures r == Creation(old(users), fields, isEmail, hash)
      ensures users == if r.Success? then old(users) + [r.value] else old(users)
    {
      var doc := new UserDocument(ApplySetters(fields), fields.password.Some?);
      var errors := Validate(doc.data, isEmail);
      if errors != [] {
        return Failure(ValidationFailed(errors));
      }
      doc.PreSave(hash);
      if IdTaken(users, doc.data.id) {
        return Failure(DuplicateKey("_id"));
      }
      if EmailTaken(users, doc.data.email) {
        return Failure(DuplicateKey("email"));
      }
      InsertKeepsKeysUnique(users, doc.data);
      users := users + [doc.data];
      r := Success(doc.data);
    }
  }

  /** Two stored users never share an email, so a lookup by email finds the one user with it. */
  lemma FindByEmailOfUnique(users: seq<User>, u: User)
    requires UniqueKeys(users) && u in users && u.email.Some?
    ensures FindByEmailWithPassword(users, u.email.value) == Some(u)
  {
    forall u' | u' in users && u'.email == u.email ensures u' == u {
      var i :| 0 <= i < |users| && users[i] == u;
      var j :| 0 <= j < |users| && users[j] == u';
      assert !(i < j) && !(j < i);
    }
    FindOneOfUnique(users, (x: User) => x.email == Some(u.email.value), u);
  }
}
