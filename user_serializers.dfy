/**
 * The account serializers of accounts/serializers.py: registration (field validation,
 * the case-insensitive duplicate check, the password confirmation, the creation) and
 * the profile serializer's output and partial update.
 *
 * The email syntax check and the password-strength rules are parameters
 * (`emailValid`, `passwordValid`).
 */
module UserSerializers {
  import opened Wrappers
  import opened Identifiers
  import opened Text
  import opened UserModels

  /**
   * A registration body; None means the key is absent or null. `display_name` is not
   * nullable, so for it None is an absent key and Some(None) an explicit null.
   */
  datatype RegistrationInput = RegistrationInput(
    email: Option<string>,
    password: Option<string>,
    passwordConfirm: Option<string>,
    displayName: Option<Option<string>>,
    phone: Option<string>,
    bio: Option<string>)

  /** What the profile serializer shows; the password fields are write-only and have no place here. */
  datatype Profile = Profile(
    id: UserId,
    email: string,
    displayName: string,
    bio: Option<string>,
    phone: Option<string>,
    isEmailVerified: bool,
    dateJoined: int)

  function ProfileOf(id: UserId, u: User): Profile {
    Profile(id, u.email, u.displayName, u.bio, u.phone, u.isEmailVerified, u.dateJoined)
  }

  const PasswordsMustMatch := "Passwords must match."

  datatype RegisterOutcome = Registered(profile: Profile) | FieldsInvalid(fields: set<string>) | NonFieldError(text: string)

  /** A required character field that may not be blank. */
  predicate MissingOrBlank(v: Option<string>) {
    v.None? || v.value == ""
  }

  predicate TooLong(v: Option<string>, max: nat) {
    v.Some? && |v.value| > max
  }

  /** `display_name` may be left out or blank, but not null, and holds at most 75 characters. */
  predicate DisplayNameInvalid(v: Option<Option<string>>) {
    v == Some(None) || (v.Some? && TooLong(v.value, DisplayNameMaxLength))
  }

  /** `CustomUser.objects.filter(email__iexact=...)` finds a row. */
  predicate EmailExistsIgnoringCase(users: Users, email: string) {
    exists id :: id in users && EqualsIgnoringCase(users[id].email, email)
  }

  /** No two stored emails differ only in case. */
  ghost predicate EmailsUniqueIgnoringCase(users: Users) {
    forall a, b :: a in users && b in users && EqualsIgnoringCase(users[a].email, users[b].email) ==> a == b
  }

  /** The keys of `serializer.errors` after the per-field validation. */
  function RegistrationFieldErrors(users: Users, input: RegistrationInput, emailValid: string -> bool, passwordValid: string -> bool): set<string> {
    (if MissingOrBlank(input.email) || !emailValid(input.email.value) || |input.email.value| > EmailMaxLength
        || EmailExistsIgnoringCase(users, input.email.value) then {"email"} else {})
    + (if MissingOrBlank(input.password) || !passwordValid(input.password.value) then {"password"} else {})
    + (if MissingOrBlank(input.passwordConfirm) then {"password_confirm"} else {})
    + (if DisplayNameInvalid(input.displayName) then {"display_name"} else {})
    + (if TooLong(input.phone, PhoneMaxLength) then {"phone"} else {})
    + (if TooLong(input.bio, BioMaxLength) then {"bio"} else {})
  }

  /** The keyword arguments `create` forwards after dropping `password_confirm`. */
  function RegistrationExtra(input: RegistrationInput): ExtraFields {
    ExtraFields(input.displayName.GetOr(None), input.phone, input.bio, None, None, None)
  }

  /**
   * The lowercased address `validate_email` returns is free in the table and already
   * normalised, so `create_user` stores it as it is.
   */
  lemma {:induction false} LowercaseEmailFree(users: Users, email: string)
    requires !EmailExistsIgnoringCase(users, email)
    ensures NormalizeEmail(Lower(email)) == Lower(email)
    ensures !EmailTaken(users, Lower(email))
    ensures forall id :: id in users ==> !EqualsIgnoringCase(users[id].email, Lower(email))
  {
    NormalizeLowercase(email);
    LowerIdempotent(email);
    forall id | id in users ensures !EqualsIgnoringCase(users[id].email, Lower(email)) {
      assert !EqualsIgnoringCase(users[id].email, email);
    }
  }

  /** What `create_user` does with a registration that passed validation. */
  lemma {:induction false} RegistrationInsert(users: Users, id: UserId, input: RegistrationInput, now: int)
    requires id !in users
    requires !MissingOrBlank(input.email) && input.password.Some?
    requires |input.email.value| <= EmailMaxLength && !EmailExistsIgnoringCase(users, input.email.value)
    requires !DisplayNameInvalid(input.displayName) && !TooLong(input.phone, PhoneMaxLength) && !TooLong(input.bio, BioMaxLength)
    ensures var created := CreateUserStep(users, id, Lower(input.email.value), input.password, RegistrationExtra(input), now);
      && created.0.UserCreated?
      && created.1 == users[id := created.0.user]
      && created.0.user == NewUser(Lower(input.email.value), input.password, RegistrationExtra(input), now)
      && LengthErrors(created.0.user) == {}
      && (EmailsUniqueIgnoringCase(users) ==> EmailsUniqueIgnoringCase(created.1))
  {
    var email := Lower(input.email.value);
    LowercaseEmailFree(users, input.email.value);
    var created := CreateUserStep(users, id, email, input.password, RegistrationExtra(input), now);
    var users' := created.1;
    assert forall a :: a in users' && a != id ==> a in users && !EqualsIgnoringCase(users'[a].email, users'[id].email);
  }

  /** `RegisterView.post` through the serializer; `id` is the new row's fresh key, `now` the clock. */
  function RegisterStep(users: Users, id: UserId, input: RegistrationInput, emailValid: string -> bool, passwordValid: string -> bool, now: int): (res: (RegisterOutcome, Users))
    requires id !in users
    ensures RegistrationFieldErrors(users, input, emailValid, passwordValid) != {} ==>
      res == (FieldsInvalid(RegistrationFieldErrors(users, input, emailValid, passwordValid)), users)
    ensures RegistrationFieldErrors(users, input, emailValid, passwordValid) == {} && input.password != input.passwordConfirm ==>
      res == (NonFieldError(PasswordsMustMatch), users)
    ensures res.0.Registered? <==>
      RegistrationFieldErrors(users, input, emailValid, passwordValid) == {} && input.password == input.passwordConfirm
    ensures input.displayName == Some(None) ==> res.0.FieldsInvalid? && "display_name" in res.0.fields
    ensures !res.0.Registered? ==> res.1 == users
    ensures res.0.Registered? ==>
      && input.email.Some? && input.password.Some?
      && !EmailExistsIgnoringCase(users, input.email.value)
      && id in res.1 && res.1 == users[id := res.1[id]]
      && |res.1| == |users| + 1
      && res.1[id].email == Lower(input.email.value)
      && CheckPassword(res.1[id].credential, input.password.value)
      && res.1[id] == NewUser(Lower(input.email.value), input.password, RegistrationExtra(input), now)
      && LengthErrors(res.1[id]) == {}
      && res.0.profile == ProfileOf(id, res.1[id])
    ensures EmailsUnique(users) ==> EmailsUnique(res.1)
    ensures EmailsUniqueIgnoringCase(users) ==> EmailsUniqueIgnoringCase(res.1)
  {
    var errs := RegistrationFieldErrors(users, input, emailValid, passwordValid);
    if errs != {} then (FieldsInvalid(errs), users)
    else if input.password.value != input.passwordConfirm.value then (NonFieldError(PasswordsMustMatch), users)
    else
      RegistrationInsert(users, id, input, now);
      var created := CreateUserStep(users, id, Lower(input.email.value), input.password, RegistrationExtra(input), now);
      (Registered(ProfileOf(id, created.0.user)), created.1)
  }

  /** Registration on the user table. */
  method Register(db: UserDb, id: UserId, input: RegistrationInput, emailValid: string -> bool, passwordValid: string -> bool, now: int) returns (r: RegisterOutcome)
    requires db.Valid() && id !in db.users
    modifies db
    ensures db.Valid()
    ensures (r, db.users) == RegisterStep(old(db.users), id, input, emailValid, passwordValid, now)
  {
    var errs := RegistrationFieldErrors(db.users, input, emailValid, passwordValid);
    if errs != {} {
      return FieldsInvalid(errs);
    }
    if input.password.value != input.passwordConfirm.value {
      return NonFieldError(PasswordsMustMatch);
    }
    var email := Lower(input.email.value);
    RegistrationInsert(db.users, id, input, now);
    var created := db.CreateUser(id, email, input.password, RegistrationExtra(input), now);
    r := Registered(ProfileOf(id, created.user));
  }

  /** Registration refuses an address that is stored already in any letter case, and stores nothing. */
  lemma RegisterRejectsCaseDuplicate(users: Users, id: UserId, existing: UserId, input: RegistrationInput, emailValid: string -> bool, passwordValid: string -> bool, now: int)
    requires id !in users && existing in users
    requires input.email.Some? && EqualsIgnoringCase(users[existing].email, input.email.value)
    ensures RegisterStep(users, id, input, emailValid, passwordValid, now).0.FieldsInvalid?
    ensures "email" in RegisterStep(users, id, input, emailValid, passwordValid, now).0.fields
    ensures RegisterStep(users, id, input, emailValid, passwordValid, now).1 == users
  {
  }

  // ---------------------------------------------------------------------------------
  // UserProfileSerializer: partial update
  // ---------------------------------------------------------------------------------

  /**
   * A profile update body; None means the key is absent, and for the writable fields
   * Some(None) is an explicit null, which `display_name` refuses. The read-only keys may
   * be sent and are ignored.
   */
  datatype ProfileInput = ProfileInput(
    id: Option<UserId>,
    email: Option<string>,
    displayName: Option<Option<string>>,
    bio: Option<Option<string>>,
    phone: Option<Option<string>>,
    isEmailVerified: Option<bool>,
    dateJoined: Option<int>)

  function ProfileErrors(input: ProfileInput): set<string> {
    (if DisplayNameInvalid(input.displayName) then {"display_name"} else {})
    + (if input.bio.Some? && TooLong(input.bio.value, BioMaxLength) then {"bio"} else {})
    + (if input.phone.Some? && TooLong(input.phone.value, PhoneMaxLength) then {"phone"} else {})
  }

  datatype UpdateOutcome = Updated(user: User) | UpdateInvalid(fields: set<string>)

  /** `UserProfileSerializer(user, data, partial=True)`: validate, then set the writable fields sent. */
  function UpdateProfile(u: User, input: ProfileInput): (r: UpdateOutcome)
    ensures r.Updated? <==> ProfileErrors(input) == {}
    ensures r.UpdateInvalid? ==> r.fields == ProfileErrors(input)
    ensures input.displayName == Some(None) ==> r.UpdateInvalid? && "display_name" in r.fields
    ensures r.Updated? ==>
      && r.user.email == u.email && r.user.isEmailVerified == u.isEmailVerified && r.user.dateJoined == u.dateJoined
      && r.user.credential == u.credential && r.user.isStaff == u.isStaff && r.user.isSuperuser == u.isSuperuser
    ensures r.Updated? ==>
      && (input.displayName.None? ==> r.user.displayName == u.displayName)
      && (input.displayName.Some? ==> Some(r.user.displayName) == input.displayName.value)
      && (input.bio.None? ==> r.user.bio == u.bio)
      && (input.bio.Some? ==> r.user.bio == input.bio.value)
      && (input.phone.None? ==> r.user.phone == u.phone)
      && (input.phone.Some? ==> r.user.phone == input.phone.value)
    ensures r.Updated? && LengthErrors(u) == {} ==> LengthErrors(r.user) == {}
  {
    var errs := ProfileErrors(input);
    if errs != {} then UpdateInvalid(errs)
    else
      Updated(u.(displayName := input.displayName.GetOr(None).GetOr(u.displayName),
                 bio := input.bio.GetOr(u.bio),
                 phone := input.phone.GetOr(u.phone)))
  }

  /** Sending only read-only keys changes nothing. */
  lemma ReadOnlyFieldsIgnored(u: User, id: Option<UserId>, email: Option<string>, verified: Option<bool>, joined: Option<int>)
    ensures UpdateProfile(u, ProfileInput(id, email, None, None, None, verified, joined)) == Updated(u)
  {
  }

  /** Saving a profile update into the table of user `id`. */
  method SaveProfile(db: UserDb, id: UserId, input: ProfileInput) returns (r: UpdateOutcome)
    requires db.Valid() && id in db.users
    modifies db
    ensures db.Valid()
    ensures r == UpdateProfile(old(db.users[id]), input)
    ensures db.users == if r.Updated? then old(db.users)[id := r.user] else old(db.users)
  {
    var u := db.users[id];
    r := UpdateProfile(u, input);
    if r.Updated? {
      db.users := db.users[id := r.user];
    }
  }
}
