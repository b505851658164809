/**
 * The user registry of accounts/models.py: `CustomUser` with its field defaults and
 * limits, `__str__`, and the `CustomUserManager` operations over the user table.
 *
 * Password hashing is abstracted: a stored credential is either unusable or the secret
 * itself, and checking a password compares against it.
 */
module UserModels {
  import opened Wrappers
  import opened Identifiers
  import opened Text

  const EmailMaxLength: nat := 255
  const DisplayNameMaxLength: nat := 75
  const PhoneMaxLength: nat := 20
  const BioMaxLength: nat := 500
  const DefaultDisplayName := "User"

  datatype Credential = Unusable | Hashed(secret: string)

  /** `set_password`: no password gives an unusable one. */
  function SetPassword(raw: Option<string>): (c: Credential)
    ensures raw.None? ==> forall other :: !CheckPassword(c, other)
    ensures raw.Some? ==> forall other :: CheckPassword(c, other) <==> other == raw.value
  {
    match raw
    case None => Unusable
    case Some(p) => Hashed(p)
  }

  /** `check_password`. */
  predicate CheckPassword(c: Credential, raw: string) {
    c.Hashed? && c.secret == raw
  }

  /** A row of the user table (avatar, names inherited from the base user, and is_active are not modelled). */
  datatype User = User(
    email: string,
    credential: Credential,
    displayName: string,
    phone: Option<string>,
    bio: Option<string>,
    isEmailVerified: bool,
    isStaff: bool,
    isSuperuser: bool,
    dateJoined: int)

  /** The keyword arguments a caller may pass to `create_user`; None means not passed. */
  datatype ExtraFields = ExtraFields(
    displayName: Option<string>,
    phone: Option<string>,
    bio: Option<string>,
    isEmailVerified: Option<bool>,
    isStaff: Option<bool>,
    isSuperuser: Option<bool>)

  const NoExtraFields := ExtraFields(None, None, None, None, None, None)

  /**
   * `BaseUserManager.normalize_email`: split at the last "@" and lowercase the domain
   * part; an address without "@" is kept as it is.
   */
  function NormalizeEmail(e: string): (r: string)
    ensures |r| == |e|
    ensures LastIndexOf(e, '@').None? ==> r == e
    ensures LastIndexOf(e, '@').Some? ==>
      var i := LastIndexOf(e, '@').value;
      r[..i + 1] == e[..i + 1] && forall j :: i < j < |e| ==> r[j] == LowerChar(e[j])
  {
    match LastIndexOf(e, '@')
    case None => e
    case Some(i) =>
      var domain := Lower(e[i + 1..]);
      var r := e[..i] + "@" + domain;
      assert r[..i + 1] == e[..i] + "@" == e[..i + 1];
      assert forall j :: i < j < |e| ==> r[j] == domain[j - i - 1] == LowerChar(e[j]);
      r
  }

  /** Lowercasing neither creates nor removes an "@". */
  lemma {:induction false} LowerKeepsLastAt(s: string)
    ensures LastIndexOf(Lower(s), '@') == LastIndexOf(s, '@')
  {
  }

  /** Normalising keeps the position of the last "@". */
  lemma {:induction false} NormalizeKeepsLastAt(e: string)
    ensures LastIndexOf(NormalizeEmail(e), '@') == LastIndexOf(e, '@')
  {
  }

  /** Normalising twice is normalising once. */
  lemma {:induction false} NormalizeIdempotent(e: string)
    ensures NormalizeEmail(NormalizeEmail(e)) == NormalizeEmail(e)
  {
  }

  /** An address that is already lowercase is left as it is. */
  lemma {:induction false} NormalizeLowercase(e: string)
    ensures NormalizeEmail(Lower(e)) == Lower(e)
  {
    var l := Lower(e);
    LowerKeepsLastAt(e);
    var r := NormalizeEmail(l);
    match LastIndexOf(l, '@')
    case None =>
    case Some(i) =>
      forall j | 0 <= j < |l| ensures r[j] == l[j] {
        if j <= i {
          assert r[..i + 1][j] == l[..i + 1][j];
        } else {
          assert r[j] == LowerChar(l[j]) == LowerChar(LowerChar(e[j]));
        }
      }
  }

  /** `CustomUser(email=..., **extra_fields)` with the field defaults, then `set_password`. */
  function NewUser(email: string, password: Option<string>, extra: ExtraFields, now: int): (u: User)
    ensures u.email == email
    ensures password.None? ==> forall other :: !CheckPassword(u.credential, other)
    ensures password.Some? ==> CheckPassword(u.credential, password.value)
    ensures extra.displayName.None? ==> u.displayName == DefaultDisplayName
    ensures extra.displayName.Some? ==> u.displayName == extra.displayName.value
    ensures u.phone == extra.phone && u.bio == extra.bio
    ensures u.isEmailVerified == (extra.isEmailVerified == Some(true))
    ensures u.isStaff == (extra.isStaff == Some(true))
    ensures u.isSuperuser == (extra.isSuperuser == Some(true))
    ensures u.dateJoined == now
  {
    User(email, SetPassword(password), extra.displayName.GetOr(DefaultDisplayName), extra.phone, extra.bio,
         extra.isEmailVerified.GetOr(false), extra.isStaff.GetOr(false), extra.isSuperuser.GetOr(false), now)
  }

  /** `CustomUser.__str__`: "display_name (email)". */
  function UserStr(u: User): (r: string)
    ensures |r| == |u.displayName| + |u.email| + 3
    ensures r[..|u.displayName|] == u.displayName
    ensures r[|u.displayName|..|u.displayName| + 2] == " ("
    ensures r[|r| - |u.email| - 1..] == u.email + ")"
  {
    u.displayName + " (" + u.email + ")"
  }

  /** A user created without a display name shows as "User (email)". */
  lemma DefaultUserStr(email: string, password: Option<string>, now: int)
    ensures UserStr(NewUser(email, password, NoExtraFields, now)) == "User (" + email + ")"
  {
  }

  /** The `max_length` checks of `full_clean`: the fields whose value is too long. */
  function LengthErrors(u: User): (e: set<string>)
    ensures e <= {"email", "display_name", "phone", "bio"}
    ensures e == {} <==>
      |u.email| <= EmailMaxLength && |u.displayName| <= DisplayNameMaxLength
      && (u.phone.Some? ==> |u.phone.value| <= PhoneMaxLength) && (u.bio.Some? ==> |u.bio.value| <= BioMaxLength)
  {
    (if |u.email| > EmailMaxLength then {"email"} else {})
    + (if |u.displayName| > DisplayNameMaxLength then {"display_name"} else {})
    + (if u.phone.Some? && |u.phone.value| > PhoneMaxLength then {"phone"} else {})
    + (if u.bio.Some? && |u.bio.value| > BioMaxLength then {"bio"} else {})
  }

  type Users = map<UserId, User>

  /** Some stored user has exactly this email. */
  predicate EmailTaken(users: Users, email: string) {
    exists id :: id in users && users[id].email == email
  }

  /** The `unique=True` constraint on email. */
  ghost predicate EmailsUnique(users: Users) {
    forall a, b :: a in users && b in users && users[a].email == users[b].email ==> a == b
  }

  datatype CreateError = EmailRequired | DuplicateEmail | StaffRequired | SuperuserRequired

  /** The message of the `ValueError` raised; a duplicate email is the database's integrity error instead. */
  function ValueErrorText(e: CreateError): Option<string> {
    match e
    case EmailRequired => Some("Email is required")
    case DuplicateEmail => None
    case StaffRequired => Some("Superuser must have is_staff=True")
    case SuperuserRequired => Some("Superuser must have is_superuser=True")
  }

  datatype CreateOutcome = UserCreated(user: User) | CreateFailed(error: CreateError)

  /** `create_user`; `id` is the fresh primary key the row receives and `now` the clock. */
  function CreateUserStep(users: Users, id: UserId, email: string, password: Option<string>, extra: ExtraFields, now: int): (res: (CreateOutcome, Users))
    requires id !in users
    ensures email == "" ==> res == (CreateFailed(EmailRequired), users)
    ensures email == "" ==> ValueErrorText(res.0.error) == Some("Email is required")
    ensures email != "" && EmailTaken(users, NormalizeEmail(email)) ==> res == (CreateFailed(DuplicateEmail), users)
    ensures res.0.UserCreated? <==> email != "" && !EmailTaken(users, NormalizeEmail(email))
    ensures res.0.UserCreated? ==>
      && res.1 == users[id := res.0.user]
      && res.0.user == NewUser(NormalizeEmail(email), password, extra, now)
    ensures EmailsUnique(users) ==> EmailsUnique(res.1)
  {
    if email == "" then (CreateFailed(EmailRequired), users)
    else
      var normalized := NormalizeEmail(email);
      if EmailTaken(users, normalized) then (CreateFailed(DuplicateEmail), users)
      else
        var user := NewUser(normalized, password, extra, now);
        (UserCreated(user), users[id := user])
  }

  /** The three `setdefault` calls of `create_superuser`. */
  function SuperuserDefaults(extra: ExtraFields): (f: ExtraFields)
    ensures f.isStaff.Some? && f.isSuperuser.Some? && f.isEmailVerified.Some?
    ensures f.isStaff.value == (extra.isStaff != Some(false))
    ensures f.isSuperuser.value == (extra.isSuperuser != Some(false))
    ensures f.isEmailVerified.value == (extra.isEmailVerified != Some(false))
    ensures f.displayName == extra.displayName && f.phone == extra.phone && f.bio == extra.bio
  {
    extra.(isStaff := Some(extra.isStaff.GetOr(true)),
           isSuperuser := Some(extra.isSuperuser.GetOr(true)),
           isEmailVerified := Some(extra.isEmailVerified.GetOr(true)))
  }

  /** `create_superuser`: the flag checks come before everything `create_user` checks. */
  function CreateSuperuserStep(users: Users, id: UserId, email: string, password: Option<string>, extra: ExtraFields, now: int): (res: (CreateOutcome, Users))
    requires id !in users
    ensures extra.isStaff == Some(false) ==> res == (CreateFailed(StaffRequired), users)
    ensures extra.isStaff != Some(false) && extra.isSuperuser == Some(false) ==> res == (CreateFailed(SuperuserRequired), users)
    ensures extra.isStaff == Some(false) ==> ValueErrorText(res.0.error) == Some("Superuser must have is_staff=True")
    ensures extra.isStaff != Some(false) && extra.isSuperuser == Some(false) ==>
      ValueErrorText(res.0.error) == Some("Superuser must have is_superuser=True")
    ensures res.0.UserCreated? <==>
      extra.isStaff != Some(false) && extra.isSuperuser != Some(false)
      && email != "" && !EmailTaken(users, NormalizeEmail(email))
    ensures res.0.UserCreated? ==>
      && res.1 == users[id := res.0.user]
      && res.0.user.email == NormalizeEmail(email)
      && res.0.user.isStaff && res.0.user.isSuperuser
      && res.0.user.isEmailVerified == (extra.isEmailVerified != Some(false))
    ensures res.0.CreateFailed? ==> res.1 == users
    ensures extra.isStaff != Some(false) && extra.isSuperuser != Some(false) ==>
      res == CreateUserStep(users, id, email, password, SuperuserDefaults(extra), now)
    ensures EmailsUnique(users) ==> EmailsUnique(res.1)
  {
    var fields := SuperuserDefaults(extra);
    if !fields.isStaff.value then (CreateFailed(StaffRequired), users)
    else if !fields.isSuperuser.value then (CreateFailed(SuperuserRequired), users)
    else CreateUserStep(users, id, email, password, fields, now)
  }

  /** The user table. */
  class UserDb {
    var users: Users

    ghost predicate Valid()
      reads this
    {
      EmailsUnique(users)
    }

    constructor ()
      ensures Valid() && users == map[]
    {
      users := map[];
    }

    /** `create_user`: build the row, set its password, save it. */
    method CreateUser(id: UserId, email: string, password: Option<string>, extra: ExtraFields, now: int) returns (r: CreateOutcome)
      requires Valid() && id !in users
      modifies this
      ensures Valid()
      ensures (r, users) == CreateUserStep(old(users), id, email, password, extra, now)
    {
      if email == "" {
        return CreateFailed(EmailRequired);
      }
      var normalized := NormalizeEmail(email);
      var user := NewUser(normalized, None, extra, now);
      user := user.(credential := SetPassword(password));
      if EmailTaken(users, normalized) {
        return CreateFailed(DuplicateEmail);
      }
      users := users[id := user];
      r := UserCreated(user);
    }

    /** `create_superuser`: fill in the flag defaults, check them, then `create_user`. */
    method CreateSuperuser(id: UserId, email: string, password: Option<string>, extra: ExtraFields, now: int) returns (r: CreateOutcome)
      requires Valid() && id !in users
      modifies this
      ensures Valid()
      ensures (r, users) == CreateSuperuserStep(old(users), id, email, password, extra, now)
    {
      var fields := extra;
      if fields.isStaff.None? {
        fields := fields.(isStaff := Some(true));
      }
      if fields.isSuperuser.None? {
        fields := fields.(isSuperuser := Some(true));
      }
      if fields.isEmailVerified.None? {
        fields := fields.(isEmailVerified := Some(true));
      }
      assert fields == SuperuserDefaults(extra);
      if !fields.isStaff.value {
        return CreateFailed(StaffRequired);
      }
      if !fields.isSuperuser.value {
        return CreateFailed(SuperuserRequired);
      }
      r := CreateUser(id, email, password, fields, now);
    }
  }
}
