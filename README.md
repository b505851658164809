# Servers, memberships and users — a Dafny model

This project models the request handling of a chat-style backend. Users own **servers**; other
users **join** them and hold a **membership** with a role (owner, admin, moderator or member).
The backend's HTTP handlers create, read, update and delete servers, join servers, and read,
re-role and remove memberships. A small user registry creates users, registers them and
updates profiles.

The database is modelled as finite maps:

- servers: server id → name, description, visibility, invite code, owner;
- memberships: (user id, server id) → role. Because the key is the pair, at most one
  membership per user and server exists by construction;
- users: user id → email, credential, display name, phone, bio and flags.

Each handler that changes the tables is written twice. First as a pure **step function** from
the tables to a reply (status plus message) and new tables; this is its specification. Second
as an imperative **method** over the mutable database object (`ServerDb`, `UserDb`) that makes
the handler's ordered early-return checks and then changes the tables. Each method's
postcondition ties its reply and new state to the step function. Handlers that only read are
functions. The server list filters are a method that narrows a set step by step.

Modules:

- `Wrappers`, `Identifiers`, `Text`: Option; user and server ids; ASCII lowercasing and
  substring search.
- `ServerModels`: the server and membership tables, `Server.save`, the member count, the
  cascade, and the `ServerDb` object.
- `Permissions`: the membership permission table `check_permission`.
- `ServerViews`: every handler of the server views.
- `ServerProperties`: lemmas that relate several handlers. A request language (`Step`,
  `Run`) covers all table-changing handlers.
- `UserModels`: the user table, `normalize_email`, `create_user`, `create_superuser` and
  `__str__`.
- `UserSerializers`: registration and the profile serializer.

Two invariants are proved.

1. Integrity: every membership refers to an existing server.
2. Every server's owner holds a membership with role "owner" in it. Every handler preserves
   this, and it holds after any sequence of requests that starts from empty tables.

The handlers are modelled as written:

- The role patch checks permission with the default "view" action. An admin who targets the
  owner therefore passes the permission step and is stopped by the owner-role check. The
  reply "Admins cannot modify the owner's membership." is never produced.
- The role patch accepts "owner", so a server can end up with two "owner" memberships.
  "Exactly one owner-role membership" is **not** an invariant of the code, and no lemma claims
  it. `SecondOwnerByPatch` exhibits the case.
- A private server whose invite code is null cannot be joined with any code. The create
  serializer never writes an invite code, so no server created through the API carries one.

## Model

| member | source | states |
|---|---|---|
| ServerModels.VisibilityName | backend/servers/models.py:7-16 | the stored choice value of a visibility parses back to it |
| ServerModels.ParseVisibility | backend/servers/models.py:7-16 | exactly "public" and "private" are valid visibility values |
| ServerModels.RoleName | backend/servers/models.py:44-49 | the stored choice value of a role parses back to it |
| ServerModels.ParseRole | backend/servers/models.py:44-49 | exactly "owner", "admin", "moderator" and "member" are valid roles |
| ServerModels.RoleNameInjective | backend/servers/models.py:44-49 | different roles are stored as different strings |
| ServerModels.MemberCount | backend/servers/models.py:38-40 | the member count is at most the number of membership rows, is at least 1 for a server that has a member, and is 0 exactly when the server has no membership |
| ServerModels.CountAfterAdd | backend/servers/models.py:38-40 | adding a new row to a server raises its member count by one |
| ServerModels.CountAfterRemove | backend/servers/models.py:38-40 | removing a row of a server lowers its member count by one |
| ServerModels.Save | backend/servers/models.py:31-36 | after a save the row is written and the owner has a membership; a new one gets role "owner", and existing memberships and their roles are unchanged |
| ServerModels.SaveIdempotent | backend/servers/models.py:34-36 | saving the same row twice equals saving it once; get_or_create adds no second row |
| ServerModels.Insert | backend/servers/models.py:64-65 | creating a membership fails exactly when the (user, server) pair already has one, whatever the role, or the server is missing; on success exactly that row is added and the count rises by one |
| ServerModels.DeleteServerRow | backend/servers/models.py:56-58 | deleting a server removes it and, by cascade, all of its memberships, and keeps every other membership |
| ServerModels.DeleteMembershipRow | backend/servers/views.py:385 | deleting a membership removes exactly that row |
| ServerModels.SetRole | backend/servers/views.py:336 | saving a role changes that one row's role and nothing else |
| ServerModels.ServerDb.SaveServer | backend/servers/models.py:31-36 | the table state after the save is that of Save; foreign-key integrity is kept |
| ServerModels.ServerDb.CreateMembership | backend/servers/models.py:64-65 | reports success exactly when Insert succeeds, and then leaves Insert's state; otherwise nothing changes; foreign-key integrity is kept |
| ServerModels.ServerDb.DeleteServer | backend/servers/models.py:56-58 | the table state after the delete is that of DeleteServerRow; foreign-key integrity is kept |
| ServerModels.ServerDb.DeleteMembership | backend/servers/views.py:385 | the table state after the delete is that of DeleteMembershipRow; foreign-key integrity is kept |
| ServerModels.ServerDb.SaveRole | backend/servers/views.py:336 | the table state after the save is that of SetRole; foreign-key integrity is kept |
| Permissions.CheckPermission | backend/servers/views.py:247-265 | fixed precedence: self, then owner, then admin (refused only for update or delete of an owner-role row), else no permission; both directions of "allowed" and the reason for each outcome |
| Permissions.ViewIsWeakest | backend/servers/views.py:247-265 | whatever is allowed for some action is allowed for "view" |
| Permissions.AdminCannotModifyOwnerOnly | backend/servers/views.py:259-262 | the reason admin_cannot_modify_owner arises only for an admin, who is neither self nor owner, updating or deleting an owner-role row |
| ServerViews.ListServers | backend/servers/views.py:18-44 | the result is exactly the servers that pass the member_type, visibility and search filters; "owner" gives exactly the owned servers, a role gives owned servers plus those where the actor has that role, any other value gives all; visibility and name-substring (case-insensitive) filters keep only matching servers |
| ServerViews.NewServer | backend/servers/views.py:46-49 | a created server is owned by the actor, has no invite code, keeps the submitted name, stores the submitted description or "" when none is given, and takes the submitted visibility or defaults to public |
| ServerViews.ApplyServerPatch | backend/servers/views.py:107-109 | a partial update sets exactly the submitted name, description and visibility and keeps every other field; the owner and invite code stay |
| ServerViews.FreshServerRows | backend/servers/models.py:31-36 | a newly created server has exactly one membership, the owner's |
| ServerViews.CreateServerStep | backend/servers/views.py:46-58 | invalid fields, an explicit null name, description or visibility among them, give 400 with the field errors and change nothing; otherwise 201, the new row, the owner's "owner" membership and a member count of 1; both invariants are preserved |
| ServerViews.CreateServer | backend/servers/views.py:46-58 | reply and new tables are those of CreateServerStep |
| ServerViews.GetServer | backend/servers/views.py:64-85 | 404 when missing; otherwise 200 exactly when the server is public or the actor is owner or member, with the row and its member count, else 403 |
| ServerViews.PatchServerStep | backend/servers/views.py:87-121 | 404 first; 403 unless owner or admin; then 400 "Failed to update the server details" for invalid fields, an explicit null name, description or visibility among them; 200 exactly for owner or admin with valid fields; a rejection changes nothing; success changes only that server's editable fields and no membership |
| ServerViews.PatchServer | backend/servers/views.py:87-121 | reply and new tables are those of PatchServerStep |
| ServerViews.DeleteServerStep | backend/servers/views.py:123-137 | 404 first; only the owner gets 204, and then the server and all its memberships are gone while other rows stay |
| ServerViews.DeleteServer | backend/servers/views.py:123-137 | reply and new tables are those of DeleteServerStep |
| ServerViews.MembershipsOf | backend/servers/views.py:156 | the listed users are exactly the server's members, with their roles |
| ServerViews.ListMemberships | backend/servers/views.py:143-185 | no server id gives 403; a missing server gives 404; anyone else who is neither owner nor member gets 403 "not a member"; 200 exactly for the owner or a member, listing exactly the server's memberships |
| ServerViews.JoinStep | backend/servers/views.py:187-232 | ordered outcomes 404, 400 owner, 400 already a member, 403 private without the right non-empty code; on 201 exactly one (actor, server, "member") row is added and the count rises by 1; rejections change nothing |
| ServerViews.Join | backend/servers/views.py:187-232 | reply and new tables are those of JoinStep |
| ServerViews.GetMembershipRow | backend/servers/views.py:238-245 | finds the membership of the (server, user) pair exactly when it exists |
| ServerViews.GetMembership | backend/servers/views.py:267-284 | 404 when the membership is missing; 200 with its role exactly for self, owner or admin; else 403 |
| ServerViews.Get | backend/servers/views.py:313 | a value is found exactly when the request body has that key, and it is the value of the last entry sent with that key |
| ServerViews.InvalidFields | backend/servers/views.py:320-323 | exactly the submitted keys other than "role" are invalid, each listed once, in the order first sent |
| ServerViews.PatchMembershipStep | backend/servers/views.py:286-349 | 404, then 403 with the message looked up by the reason code, then 400 for an owner-role target, then 400 for a self role change, then 400 listing the other keys, then 400 "Failed to update membership." for an invalid role; a repeated "role" key applies its last value; 200 exactly when none of these applies; any rejection leaves the tables unchanged; success sets only that row's role to the parsed value |
| ServerViews.PatchMembership | backend/servers/views.py:286-349 | reply and new tables are those of PatchMembershipStep |
| ServerViews.RemoveMembershipStep | backend/servers/views.py:351-389 | 404 first; a non-owner row targeted by someone who is not self, owner or admin gives 403 with the no-permission text; 200 exactly for a non-owner row removed by self, owner or admin, deleting that one row; an owner-role row is never removed (403 for an admin, 400 for self or owner) |
| ServerViews.RemoveMembership | backend/servers/views.py:351-389 | reply and new tables are those of RemoveMembershipStep |
| ServerProperties.JoinThenLeave | backend/servers/views.py:380-385 | leaving right after joining restores both tables |
| ServerProperties.CreateThenDelete | backend/servers/views.py:136 | deleting a server right after creating it restores both tables |
| ServerProperties.RepeatedKeys | backend/servers/views.py:313-323 | in an example body that repeats keys, the last value of "role" is read, and a repeated invalid key is reported once, where it was first sent |
| ServerProperties.RoleChangeUndone | backend/servers/views.py:332-336 | an owner or admin can change another member's non-owner role to any role other than "owner" and change it back, restoring the tables |
| ServerProperties.PatchNeverSaysAdminCannotModifyOwner | backend/servers/views.py:294-302 | because patch checks the "view" action, its reply is never "Admins cannot modify the owner's membership." |
| ServerProperties.AdminPatchingOwnerGetsRoleError | backend/servers/views.py:306-310 | an admin targeting the owner's membership gets the 400 owner-role error and nothing changes |
| ServerProperties.SecondOwnerByPatch | backend/servers/views.py:332-336 | an owner can patch a member to "owner", leaving two owner-role memberships |
| ServerProperties.PromotedOwnerCannotBeDemoted | backend/servers/views.py:306-310 | no role patch of an owner-role membership succeeds |
| ServerProperties.PrivateWithoutCodeUnjoinable | backend/servers/views.py:207-215 | a private server whose invite code is null cannot be joined with any code |
| ServerProperties.CreatedPrivateServerUnjoinable | backend/servers/views.py:46-49 | a private server created through the API cannot be joined by anyone |
| ServerProperties.JoinTwiceRejected | backend/servers/views.py:200-204 | a second join of the same user is refused with 400 and changes nothing |
| ServerProperties.Step | backend/servers/views.py:46-389 | every handler keeps the integrity invariant and the owner invariant; every 400, 403 or 404 leaves the tables unchanged; only server handlers change the server table |
| ServerProperties.RunPreservesOwnerInvariant | backend/servers/models.py:31-36 | the owner invariant holds after any sequence of requests |
| ServerProperties.OwnerInvariantFromEmpty | backend/servers/models.py:31-36 | starting from empty tables, every server's owner always holds an "owner" membership |
| ServerProperties.RejectedRunChangesNothing | backend/servers/views.py:46-389 | a sequence of rejected requests leaves the tables as they were |
| UserModels.SetPassword | backend/accounts/models.py:14 | the credential accepts exactly the password that was set; no password gives one that accepts nothing |
| UserModels.NormalizeEmail | backend/accounts/models.py:12 | keeps the length and everything up to the last "@", lowercases the domain, and leaves an address without "@" unchanged |
| UserModels.NormalizeKeepsLastAt | backend/accounts/models.py:12 | normalising keeps the position of the last "@" |
| UserModels.NormalizeIdempotent | backend/accounts/models.py:12 | normalising twice equals normalising once |
| UserModels.NormalizeLowercase | backend/accounts/models.py:12 | a lowercase address is already normalised |
| UserModels.NewUser | backend/accounts/models.py:35-38 | a new user has display name "User" unless given, null phone and bio unless given, is not verified, not staff and not superuser unless given, and the credential of the submitted password |
| UserModels.LengthErrors | backend/accounts/models.py:34-37 | a user has no length error exactly when the email holds at most 255 characters, the display name at most 75, and the phone and bio, when set, at most 20 and 500; only those four fields are ever reported |
| UserModels.UserStr | backend/accounts/models.py:45-46 | the string form is the display name, " (", the email and ")" |
| UserModels.DefaultUserStr | backend/accounts/models.py:45-46 | a user created without a display name shows as "User (email)" |
| UserModels.CreateUserStep | backend/accounts/models.py:8-16 | an empty email fails with the message "Email is required" and creates nothing; a taken normalised email is refused; otherwise exactly the new user is added with the normalised email; exact email uniqueness is preserved |
| UserModels.SuperuserDefaults | backend/accounts/models.py:19-21 | is_staff, is_superuser and is_email_verified default to true and keep a value that was passed |
| UserModels.CreateSuperuserStep | backend/accounts/models.py:18-28 | an explicit false is_staff is refused first, then an explicit false is_superuser, each with its ValueError message, before any create_user check; once both flags pass, the outcome and table are exactly those of create_user with the defaulted flags, so its email errors and its new row (credential, display name, phone, bio) apply; a created superuser is staff and superuser |
| UserModels.UserDb.CreateUser | backend/accounts/models.py:8-16 | outcome and new table are those of CreateUserStep; email uniqueness is kept |
| UserModels.UserDb.CreateSuperuser | backend/accounts/models.py:18-28 | outcome and new table are those of CreateSuperuserStep; email uniqueness is kept |
| UserSerializers.LowercaseEmailFree | backend/accounts/serializers.py:22-26 | an address that passed validate_email is stored lowercased and unchanged by normalisation, and matches no stored email in any case |
| UserSerializers.RegistrationInsert | backend/accounts/serializers.py:33-36 | a validated registration always creates its user, who satisfies the model's length limits |
| UserSerializers.RegisterStep | backend/accounts/serializers.py:22-36 | field errors refuse first (an explicit null display name among them), then "Passwords must match."; on success exactly one user is added, with the lowercased email, no case-insensitive duplicate, a credential that verifies the submitted password, and within the length limits; exact and case-insensitive email uniqueness are preserved |
| UserSerializers.Register | backend/accounts/serializers.py:22-36 | outcome and new table are those of RegisterStep; email uniqueness is kept |
| UserSerializers.RegisterRejectsCaseDuplicate | backend/accounts/serializers.py:24-25 | an email stored in any letter case is refused and no user is added |
| UserSerializers.UpdateProfile | backend/accounts/serializers.py:39-52 | an explicit null display name is refused; a valid partial update sets exactly the submitted display name, bio and phone; email, verification flag, date joined and credential never change; an invalid one changes nothing |
| UserSerializers.ReadOnlyFieldsIgnored | backend/accounts/serializers.py:52 | a body with only id, email, is_email_verified and date_joined changes nothing |
| UserSerializers.SaveProfile | backend/accounts/serializers.py:39-52 | the table holds UpdateProfile's result for that user, and email uniqueness is preserved |

## Left out

- HTTP framing: only status, message or error text, field-error keys, and the listed ids,
  details or roles are modelled. Serialized payloads are not, beyond the server row, the
  member count and the membership roles.
- Authentication (JWT login and refresh, `IsAuthenticated`): the acting user is a parameter,
  and 401 replies are not modelled.
- Ids, clocks and files: UUID generation becomes a precondition that the new id is fresh.
  The request language uses an arbitrary unused key. `date_joined` is a `now` parameter.
  Icons, avatars and timestamps are not modelled.
- Password hashing is abstracted to a credential that stores the secret. The strength rules
  of `validate_password` and the email syntax check are function parameters.
- ServerViews.Join: the "Failed to join the server" branch is not modelled. The serializer
  validates only the actor's own id, which always passes.
- ServerViews.PatchMembership: the serializer's unique-together check is not modelled. The
  request body holds only "role" at that point, so the user and server are unchanged.
- ServerViews.ListServers: the search filter folds case for ASCII letters only; the database's
  case-insensitive match is wider.
- UserSerializers.RegisterStep: the case-insensitive duplicate check folds ASCII letters
  only. DRF's whitespace trimming and the exact-match uniqueness validator's own message are
  not modelled; both refusals appear as an "email" field error.
- ServerViews.NewServer: the name and description are stored as submitted. DRF's trimming of
  surrounding whitespace is not modelled.
- ServerViews.ApplyServerPatch: the same; patched text fields are stored untrimmed.
- ServerViews.CreateServerStep: without trimming, a name of only spaces counts as non-blank and
  the server is created. The serializer trims such a name to blank and refuses it with 400.
- ServerViews.PatchServerStep: the same; a name of only spaces is accepted here, where the
  handler replies 400 "Failed to update the server details".
- UserSerializers.UpdateProfile: display name, bio and phone are stored as submitted, without
  DRF's trimming of surrounding whitespace.
- UserModels.NormalizeEmail: it lowercases ASCII letters only and does not strip
  surrounding whitespace.
- UserModels.CreateUserStep: does not enforce the model's length limits, because
  `create_user` saves without `full_clean`. The limits are the serializers' checks plus
  `LengthErrors`.
- ServerViews.ListMemberships: the role and search filters on the membership list are not
  modelled, because the handler does not implement them.
- Deleting a user, and its cascade over owned servers and memberships: no handler does it.
- Concurrency: concurrent duplicate joins rely on the database constraint; the model is
  sequential.
- The account views, URL routing and Django admin configuration are not part of this model.
