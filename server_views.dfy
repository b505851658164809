/**
 * The request handlers of servers/views.py.
 *
 * Each handler that changes the tables has a step function over a `Store` value, which is
 * its specification (the reply and the new tables), and a method over the `ServerDb`
 * object that runs the handler's early-return checks and then the table change; the
 * method's postcondition ties it to the step function. Handlers that only read are
 * functions (or, for the list filters, a method that narrows a set step by step).
 * The acting user is an explicit parameter: the authenticated `request.user`.
 */
module ServerViews {
  import opened Wrappers
  import opened Identifiers
  import opened Text
  import opened ServerModels
  import opened Permissions

  /** HTTP statuses 200, 201, 204, 400, 403 and 404. */
  datatype Status = Ok | Created | NoContent | BadRequest | Forbidden | NotFound

  /** The response body: a `message` key, an `error` key, serializer field errors, or nothing. */
  datatype Body = Message(text: string) | Error(text: string) | FieldErrors(fields: set<string>) | NoBody

  datatype Reply = Reply(status: Status, body: Body)

  const Success := "Success"
  const NotFoundText := "Not found"
  const ServerMissing := "Server does not exist."
  const MembershipMissing := "Membership does not exist."
  const PermissionDeniedCapital := "Permission Denied"
  const PermissionDenied := "Permission denied."
  const NotOwner := "Permission denied. You are not the owner of this server."
  const ServerCreatedText := "Server created successfully"
  const ServerUpdatedText := "Server details updated successfully"
  const ServerUpdateFailed := "Failed to update the server details"
  const OwnMembershipsOnly := "Permission denied. You can only view your own memberships"
  const NotAMember := "Permission denied. You are not a member of this server."
  const OwnerAlreadyMember := "You are the owner of this server and already a member."
  const AlreadyMember := "You are already a member of this server."
  const InviteRequired := "This is a private server. You need a valid invitation code to join."
  const AdminCannotModifyOwnerText := "Admins cannot modify the owner's membership."
  const PatchNoPermissionText := "Permission denied. Only server owners and admins can update member roles."
  const OwnerRoleFixed := "Cannot modify the owner's role. Transfer ownership first."
  const OwnRoleFixed := "You cannot change your own role. Ask an admin or owner."
  const RoleUpdated := "Member role updated successfully."
  const RoleUpdateFailed := "Failed to update membership."
  const AdminCannotRemoveOwner := "Admins cannot remove the server owner."
  const RemoveNoPermissionText := "Permission denied. You can only leave servers yourself or be removed by admins/owners."
  const OwnerCannotLeave := "Server owners cannot leave their own server. Transfer ownership or delete the server."

  function JoinedText(serverName: string): string {
    "Congratulations! You have joined " + serverName + "."
  }

  function LeftText(serverName: string): string {
    "You have left " + serverName + "."
  }

  function RemovedText(displayName: string, serverName: string): string {
    displayName + " has been removed from " + serverName + "."
  }

  function InvalidFieldsText(fields: seq<string>): string {
    "Cannot update fields: " + JoinWith(fields, ", ") + ". Only 'role' can be updated."
  }

  // ---------------------------------------------------------------------------------
  // Server bodies (ServerCreateSerializer / ServerSerializer)
  // ---------------------------------------------------------------------------------

  /**
   * A server request body. For each key, None means it is absent and Some(None) that it
   * is an explicit null. `inviteCode` and `owner` are keys a client may send; neither
   * serializer writes them (`owner` is read-only, `invite_code` is not among the fields).
   */
  datatype ServerInput = ServerInput(
    name: Option<Option<string>>,
    description: Option<Option<string>>,
    visibility: Option<Option<string>>,
    inviteCode: Option<Option<string>>,
    owner: Option<UserId>)

  /** The value sent for a key; None when the key is absent or null. */
  function Sent(v: Option<Option<string>>): Option<string> {
    v.GetOr(None)
  }

  /** `name` is required on create, may not be null or blank, and holds at most 100 characters. */
  predicate NameInvalid(name: Option<Option<string>>, required: bool) {
    match name
    case None => required
    case Some(None) => true
    case Some(Some(n)) => |n| == 0 || |n| > NameMaxLength
  }

  /**
   * The keys of `serializer.errors`. None of the three fields is nullable; `description`
   * accepts any text, blank included, and `visibility` only a choice value.
   */
  function InvalidServerFields(input: ServerInput, creating: bool): set<string> {
    (if NameInvalid(input.name, creating) then {"name"} else {})
    + (if input.description == Some(None) then {"description"} else {})
    + (if input.visibility == Some(None) || (Sent(input.visibility).Some? && ParseVisibility(Sent(input.visibility).value).None?)
       then {"visibility"} else {})
  }

  /** The row `serializer.save(owner=request.user)` builds. */
  function NewServer(input: ServerInput, actor: UserId): (srv: Server)
    requires InvalidServerFields(input, true) == {}
    ensures srv.owner == actor && srv.inviteCode.None?
    ensures Sent(input.name) == Some(srv.name) && |srv.name| <= NameMaxLength
    ensures srv.description == Sent(input.description).GetOr("")
    ensures input.visibility.None? ==> srv.visibility == DefaultVisibility
    ensures input.visibility.Some? ==> Some(VisibilityName(srv.visibility)) == input.visibility.value
  {
    assert "name" !in InvalidServerFields(input, true);
    var vis := if input.visibility.Some? then ParseVisibility(input.visibility.value.value).value else DefaultVisibility;
    Server(input.name.value.value, Sent(input.description).GetOr(""), vis, None, actor)
  }

  /** A partial update: only the submitted writable fields change. */
  function ApplyServerPatch(srv: Server, input: ServerInput): (r: Server)
    requires InvalidServerFields(input, false) == {}
    ensures r.owner == srv.owner && r.inviteCode == srv.inviteCode
    ensures r.name == Sent(input.name).GetOr(srv.name) && r.description == Sent(input.description).GetOr(srv.description)
    ensures input.visibility.None? ==> r.visibility == srv.visibility
    ensures input.visibility.Some? ==> Some(VisibilityName(r.visibility)) == input.visibility.value
  {
    var vis := if input.visibility.Some? then ParseVisibility(input.visibility.value.value).value else srv.visibility;
    srv.(name := Sent(input.name).GetOr(srv.name), description := Sent(input.description).GetOr(srv.description), visibility := vis)
  }

  // ---------------------------------------------------------------------------------
  // ServerListView.get
  // ---------------------------------------------------------------------------------

  datatype ListQuery = ListQuery(memberType: Option<string>, visibility: Option<string>, search: Option<string>)

  /** Python truthiness of an optional query parameter. */
  predicate Truthy(p: Option<string>) {
    p.Some? && p.value != ""
  }

  predicate IsRoleFilter(t: string) {
    t == "admin" || t == "moderator" || t == "member"
  }

  /** The servers the actor owns. */
  function OwnedBy(st: Store, actor: UserId): set<ServerId> {
    set s | s in st.servers.Keys && st.servers[s].owner == actor
  }

  /** The servers where the actor holds a membership whose stored role is `role`. */
  function WithRole(st: Store, actor: UserId, role: string): set<ServerId> {
    set k | k in st.memberships.Keys && k.0 == actor && RoleName(st.memberships[k]) == role :: k.1
  }

  /** The `member_type` filter, for one server. */
  predicate MemberTypeMatches(st: Store, actor: UserId, s: ServerId, memberType: Option<string>)
    requires s in st.servers
  {
    if memberType == Some("owner") then st.servers[s].owner == actor
    else if memberType.Some? && IsRoleFilter(memberType.value) then
      st.servers[s].owner == actor || s in WithRole(st, actor, memberType.value)
    else true
  }

  /** The `visibility` filter compares the stored choice value. */
  predicate VisibilityMatches(srv: Server, visibility: Option<string>) {
    Truthy(visibility) ==> VisibilityName(srv.visibility) == visibility.value
  }

  /** The `search` filter: `name__icontains`. */
  predicate SearchMatches(srv: Server, search: Option<string>) {
    Truthy(search) ==> ContainsIgnoringCase(srv.name, search.value)
  }

  /** `ServerListView.get`: the queryset narrowed filter by filter. */
  method ListServers(db: ServerDb, actor: UserId, q: ListQuery) returns (r: Reply, ids: set<ServerId>)
    requires db.Valid()
    ensures r == Reply(Ok, Message(Success))
    ensures forall s :: s in ids <==>
      s in db.servers && MemberTypeMatches(db.State(), actor, s, q.memberType)
      && VisibilityMatches(db.servers[s], q.visibility) && SearchMatches(db.servers[s], q.search)
    ensures q.memberType == Some("owner") ==> ids <= OwnedBy(db.State(), actor)
    ensures q.memberType.Some? && IsRoleFilter(q.memberType.value) ==>
      ids <= OwnedBy(db.State(), actor) + WithRole(db.State(), actor, q.memberType.value)
    ensures !Truthy(q.visibility) && !Truthy(q.search) ==>
      ids == if q.memberType == Some("owner") then OwnedBy(db.State(), actor)
             else if q.memberType.Some? && IsRoleFilter(q.memberType.value) then
               OwnedBy(db.State(), actor) + WithRole(db.State(), actor, q.memberType.value)
             else db.servers.Keys
    ensures Truthy(q.visibility) ==> forall s :: s in ids ==> VisibilityName(db.servers[s].visibility) == q.visibility.value
    ensures Truthy(q.search) ==> forall s :: s in ids ==> ContainsIgnoringCase(db.servers[s].name, q.search.value)
  {
    r := Reply(Ok, Message(Success));
    ghost var st := db.State();
    ids := db.servers.Keys;
    if q.memberType == Some("owner") {
      ids := set s | s in ids && db.servers[s].owner == actor;
      assert ids == OwnedBy(st, actor);
    } else if q.memberType.Some? && IsRoleFilter(q.memberType.value) {
      var serverIds := set k | k in db.memberships.Keys && k.0 == actor && RoleName(db.memberships[k]) == q.memberType.value :: k.1;
      ids := set s | s in ids && (db.servers[s].owner == actor || s in serverIds);
      assert serverIds == WithRole(st, actor, q.memberType.value);
      assert forall s :: s in WithRole(st, actor, q.memberType.value) ==> s in db.servers;
    }
    ghost var afterMemberType := ids;
    assert forall s :: s in ids <==> s in db.servers && MemberTypeMatches(st, actor, s, q.memberType);
    if Truthy(q.visibility) {
      ids := set s | s in ids && VisibilityName(db.servers[s].visibility) == q.visibility.value;
    }
    if Truthy(q.search) {
      ids := set s | s in ids && ContainsIgnoringCase(db.servers[s].name, q.search.value);
    }
  }

  // ---------------------------------------------------------------------------------
  // ServerListView.post
  // ---------------------------------------------------------------------------------

  /** A fresh server key has no membership rows yet; after its save it has the owner's only. */
  lemma {:induction false} FreshServerRows(st: Store, id: ServerId, srv: Server)
    requires Wellformed(st) && id !in st.servers
    ensures Save(st, id, srv).memberships == st.memberships[(srv.owner, id) := Owner]
    ensures RowsOf(Save(st, id, srv).memberships, id) == {(srv.owner, id)}
  {
  }

  /**
   * Creating a server. `id` is the key the database generates for the new row; it is
   * fresh.
   */
  function CreateServerStep(st: Store, actor: UserId, id: ServerId, input: ServerInput): (res: (Reply, Store))
    requires Wellformed(st) && id !in st.servers
    ensures InvalidServerFields(input, true) != {} ==>
      res == (Reply(BadRequest, FieldErrors(InvalidServerFields(input, true))), st)
    ensures input.name == Some(None) || input.description == Some(None) || input.visibility == Some(None) ==>
      res.0.status == BadRequest && res.1 == st
    ensures InvalidServerFields(input, true) == {} ==>
      && res.0 == Reply(Created, Message(ServerCreatedText))
      && res.1.servers == st.servers[id := NewServer(input, actor)]
      && res.1.memberships == st.memberships[(actor, id) := Owner]
      && MemberCount(res.1, id) == 1
    ensures Wellformed(res.1)
    ensures OwnerHasOwnerRole(st) ==> OwnerHasOwnerRole(res.1)
  {
    var bad := InvalidServerFields(input, true);
    if bad != {} then
      (Reply(BadRequest, FieldErrors(bad)), st)
    else
      var srv := NewServer(input, actor);
      FreshServerRows(st, id, srv);
      (Reply(Created, Message(ServerCreatedText)), Save(st, id, srv))
  }

  method CreateServer(db: ServerDb, actor: UserId, id: ServerId, input: ServerInput) returns (r: Reply)
    requires db.Valid() && id !in db.servers
    modifies db
    ensures (r, db.State()) == CreateServerStep(old(db.State()), actor, id, input)
  {
    var bad := InvalidServerFields(input, true);
    if bad != {} {
      return Reply(BadRequest, FieldErrors(bad));
    }
    db.SaveServer(id, NewServer(input, actor));
    r := Reply(Created, Message(ServerCreatedText));
  }

  // ---------------------------------------------------------------------------------
  // ServerDetailView
  // ---------------------------------------------------------------------------------

  /** What the server serializer shows: the row and `member_count`. */
  datatype ServerDetail = ServerDetail(server: Server, memberCount: nat)

  /** `ServerDetailView.get`. */
  function GetServer(st: Store, actor: UserId, sid: ServerId): (res: (Reply, Option<ServerDetail>))
    ensures sid !in st.servers ==> res == (Reply(NotFound, Message(NotFoundText)), None)
    ensures res.0.status == Ok <==>
      sid in st.servers
      && (st.servers[sid].visibility == Public || st.servers[sid].owner == actor || (actor, sid) in st.memberships)
    ensures res.0.status == Ok ==> res == (Reply(Ok, Message(Success)), Some(ServerDetail(st.servers[sid], MemberCount(st, sid))))
    ensures res.0.status != Ok ==> res.1.None?
    ensures sid in st.servers && res.0.status != Ok ==> res.0 == Reply(Forbidden, Error(PermissionDeniedCapital))
  {
    if sid !in st.servers then (Reply(NotFound, Message(NotFoundText)), None)
    else
      var server := st.servers[sid];
      var isMember := (actor, sid) in st.memberships;
      var isOwner := server.owner == actor;
      if server.visibility == Private && !(isMember || isOwner) then
        (Reply(Forbidden, Error(PermissionDeniedCapital)), None)
      else
        assert server.visibility == Public || isOwner || isMember;
        (Reply(Ok, Message(Success)), Some(ServerDetail(server, MemberCount(st, sid))))
  }

  /** `ServerDetailView.patch`: owner or admin only; then a partial update and a save. */
  function PatchServerStep(st: Store, actor: UserId, sid: ServerId, input: ServerInput): (res: (Reply, Store))
    requires Wellformed(st)
    ensures sid !in st.servers ==> res == (Reply(NotFound, Message(ServerMissing)), st)
    ensures sid in st.servers && st.servers[sid].owner != actor && !IsAdmin(st.memberships, actor, sid) ==>
      res == (Reply(Forbidden, Error(NotOwner)), st)
    ensures res.0.status == Ok <==>
      sid in st.servers && (st.servers[sid].owner == actor || IsAdmin(st.memberships, actor, sid))
      && InvalidServerFields(input, false) == {}
    ensures sid in st.servers && (st.servers[sid].owner == actor || IsAdmin(st.memberships, actor, sid))
      && InvalidServerFields(input, false) != {}
      ==> res == (Reply(BadRequest, Error(ServerUpdateFailed)), st)
    ensures sid in st.servers && (st.servers[sid].owner == actor || IsAdmin(st.memberships, actor, sid))
      && (input.name == Some(None) || input.description == Some(None) || input.visibility == Some(None))
      ==> res == (Reply(BadRequest, Error(ServerUpdateFailed)), st)
    ensures res.0.status != Ok ==> res.1 == st
    ensures res.0.status == Ok ==>
      && res.0 == Reply(Ok, Message(ServerUpdatedText))
      && res.1.servers == st.servers[sid := ApplyServerPatch(st.servers[sid], input)]
      && res.1.servers[sid].owner == st.servers[sid].owner
      && res.1.servers[sid].inviteCode == st.servers[sid].inviteCode
    ensures forall k :: k in st.memberships ==> k in res.1.memberships && res.1.memberships[k] == st.memberships[k]
    ensures OwnerHasOwnerRole(st) ==> res.1.memberships == st.memberships
    ensures Wellformed(res.1)
    ensures OwnerHasOwnerRole(st) ==> OwnerHasOwnerRole(res.1)
  {
    if sid !in st.servers then (Reply(NotFound, Message(ServerMissing)), st)
    else
      var server := st.servers[sid];
      var hasPermission := if server.owner == actor then true else IsAdmin(st.memberships, actor, sid);
      if !hasPermission then (Reply(Forbidden, Error(NotOwner)), st)
      else if InvalidServerFields(input, false) != {} then (Reply(BadRequest, Error(ServerUpdateFailed)), st)
      else
        var st' := Save(st, sid, ApplyServerPatch(server, input));
        assert OwnerHasOwnerRole(st) ==> (server.owner, sid) in st.memberships;
        (Reply(Ok, Message(ServerUpdatedText)), st')
  }

  method PatchServer(db: ServerDb, actor: UserId, sid: ServerId, input: ServerInput) returns (r: Reply)
    requires db.Valid()
    modifies db
    ensures (r, db.State()) == PatchServerStep(old(db.State()), actor, sid, input)
  {
    if sid !in db.servers {
      return Reply(NotFound, Message(ServerMissing));
    }
    var server := db.servers[sid];
    var hasPermission := server.owner == actor || IsAdmin(db.memberships, actor, sid);
    if !hasPermission {
      return Reply(Forbidden, Error(NotOwner));
    }
    if InvalidServerFields(input, false) != {} {
      return Reply(BadRequest, Error(ServerUpdateFailed));
    }
    db.SaveServer(sid, ApplyServerPatch(server, input));
    r := Reply(Ok, Message(ServerUpdatedText));
  }

  /** `ServerDetailView.delete`: owner only; the cascade removes every membership of the server. */
  function DeleteServerStep(st: Store, actor: UserId, sid: ServerId): (res: (Reply, Store))
    ensures sid !in st.servers ==> res == (Reply(NotFound, Message(ServerMissing)), st)
    ensures sid in st.servers && st.servers[sid].owner != actor ==> res == (Reply(Forbidden, Error(NotOwner)), st)
    ensures res.0.status == NoContent <==> sid in st.servers && st.servers[sid].owner == actor
    ensures res.0.status == NoContent ==>
      && res.0.body == NoBody
      && res.1.servers == st.servers - {sid}
      && RowsOf(res.1.memberships, sid) == {}
      && (forall k :: k in st.memberships && k.1 != sid ==> k in res.1.memberships && res.1.memberships[k] == st.memberships[k])
      && res.1.memberships.Keys <= st.memberships.Keys
    ensures Wellformed(st) ==> Wellformed(res.1)
    ensures OwnerHasOwnerRole(st) ==> OwnerHasOwnerRole(res.1)
  {
    if sid !in st.servers then (Reply(NotFound, Message(ServerMissing)), st)
    else if st.servers[sid].owner != actor then (Reply(Forbidden, Error(NotOwner)), st)
    else (Reply(NoContent, NoBody), DeleteServerRow(st, sid))
  }

  method DeleteServer(db: ServerDb, actor: UserId, sid: ServerId) returns (r: Reply)
    requires db.Valid()
    modifies db
    ensures (r, db.State()) == DeleteServerStep(old(db.State()), actor, sid)
  {
    if sid !in db.servers {
      return Reply(NotFound, Message(ServerMissing));
    }
    if db.servers[sid].owner != actor {
      return Reply(Forbidden, Error(NotOwner));
    }
    db.DeleteServer(sid);
    r := Reply(NoContent, NoBody);
  }

  // ---------------------------------------------------------------------------------
  // ServerMembershipListView
  // ---------------------------------------------------------------------------------

  /** The server's memberships, by user. */
  function MembershipsOf(ms: Memberships, s: ServerId): (m: map<UserId, Role>)
    ensures forall u :: u in m <==> (u, s) in ms
    ensures forall u :: u in m ==> m[u] == ms[(u, s)]
  {
    var users := set k | k in ms.Keys && k.1 == s :: k.0;
    assert forall u :: u in users <==> (u, s) in ms by {
      forall u | (u, s) in ms ensures u in users {
        var k := (u, s);
        assert k in ms.Keys && k.1 == s;
      }
    }
    map u | u in users :: ms[(u, s)]
  }

  /** `ServerMembershipListView.get`; `sid` is None when the route carries no server id. */
  function ListMemberships(st: Store, actor: UserId, sid: Option<ServerId>): (res: (Reply, map<UserId, Role>))
    ensures sid.None? ==> res == (Reply(Forbidden, Error(OwnMembershipsOnly)), map[])
    ensures sid.Some? && sid.value !in st.servers ==> res == (Reply(NotFound, Error(ServerMissing)), map[])
    ensures res.0.status == Ok <==>
      sid.Some? && sid.value in st.servers && (st.servers[sid.value].owner == actor || (actor, sid.value) in st.memberships)
    ensures sid.Some? && sid.value in st.servers && st.servers[sid.value].owner != actor && (actor, sid.value) !in st.memberships
      ==> res == (Reply(Forbidden, Error(NotAMember)), map[])
    ensures res.0.status == Ok ==> res.0.body == Message(Success)
    ensures res.0.status == Ok ==> forall u :: u in res.1 <==> (u, sid.value) in st.memberships
    ensures res.0.status == Ok ==> forall u :: u in res.1 ==> res.1[u] == st.memberships[(u, sid.value)]
    ensures res.0.status != Ok ==> res.1 == map[]
  {
    if sid.None? then (Reply(Forbidden, Error(OwnMembershipsOnly)), map[])
    else if sid.value !in st.servers then (Reply(NotFound, Error(ServerMissing)), map[])
    else
      var memberships := MembershipsOf(st.memberships, sid.value);
      var isOwner := actor == st.servers[sid.value].owner;
      var isMember := if !isOwner then actor in memberships else false;
      if !(isOwner || isMember) then (Reply(Forbidden, Error(NotAMember)), map[])
      else (Reply(Ok, Message(Success)), memberships)
  }

  /** The invite-code check: the submitted code is present, non-empty and equal to the stored one. */
  predicate InviteAccepted(submitted: Option<string>, stored: Option<string>) {
    submitted.Some? && submitted.value != "" && submitted == stored
  }

  /** `ServerMembershipListView.post`: join a server as a "member". */
  function JoinStep(st: Store, actor: UserId, sid: ServerId, inviteCode: Option<string>): (res: (Reply, Store))
    requires Wellformed(st)
    ensures sid !in st.servers ==> res == (Reply(NotFound, Error(ServerMissing)), st)
    ensures sid in st.servers && st.servers[sid].owner == actor ==> res == (Reply(BadRequest, Error(OwnerAlreadyMember)), st)
    ensures sid in st.servers && st.servers[sid].owner != actor && (actor, sid) in st.memberships ==>
      res == (Reply(BadRequest, Error(AlreadyMember)), st)
    ensures sid in st.servers && st.servers[sid].owner != actor && (actor, sid) !in st.memberships
      && st.servers[sid].visibility == Private && !InviteAccepted(inviteCode, st.servers[sid].inviteCode)
      ==> res == (Reply(Forbidden, Error(InviteRequired)), st)
    ensures res.0.status == Created <==>
      sid in st.servers && st.servers[sid].owner != actor && (actor, sid) !in st.memberships
      && (st.servers[sid].visibility == Private ==> InviteAccepted(inviteCode, st.servers[sid].inviteCode))
    ensures res.0.status != Created ==> res.1 == st
    ensures res.0.status == Created ==>
      && res.0.body == Message(JoinedText(st.servers[sid].name))
      && res.1.servers == st.servers
      && res.1.memberships == st.memberships[(actor, sid) := Member]
      && MemberCount(res.1, sid) == MemberCount(st, sid) + 1
    ensures Wellformed(res.1)
    ensures OwnerHasOwnerRole(st) ==> OwnerHasOwnerRole(res.1)
  {
    if sid !in st.servers then (Reply(NotFound, Error(ServerMissing)), st)
    else
      var server := st.servers[sid];
      if server.owner == actor then (Reply(BadRequest, Error(OwnerAlreadyMember)), st)
      else if (actor, sid) in st.memberships then (Reply(BadRequest, Error(AlreadyMember)), st)
      else if server.visibility == Private && (inviteCode.None? || inviteCode.value == "" || inviteCode != server.inviteCode) then
        (Reply(Forbidden, Error(InviteRequired)), st)
      else
        (Reply(Created, Message(JoinedText(server.name))), Insert(st, actor, sid, DefaultRole).value)
  }

  method Join(db: ServerDb, actor: UserId, sid: ServerId, inviteCode: Option<string>) returns (r: Reply)
    requires db.Valid()
    modifies db
    ensures (r, db.State()) == JoinStep(old(db.State()), actor, sid, inviteCode)
  {
    if sid !in db.servers {
      return Reply(NotFound, Error(ServerMissing));
    }
    var server := db.servers[sid];
    if server.owner == actor {
      return Reply(BadRequest, Error(OwnerAlreadyMember));
    }
    if (actor, sid) in db.memberships {
      return Reply(BadRequest, Error(AlreadyMember));
    }
    if server.visibility == Private {
      if inviteCode.None? || inviteCode.value == "" || inviteCode != server.inviteCode {
        return Reply(Forbidden, Error(InviteRequired));
      }
    }
    var created := db.CreateMembership(actor, sid, DefaultRole);
    assert created;
    r := Reply(Created, Message(JoinedText(server.name)));
  }

  // ---------------------------------------------------------------------------------
  // ServerMembershipDetailView
  // ---------------------------------------------------------------------------------

  /** `get_membership(server_id, user_id)`. */
  function GetMembershipRow(st: Store, sid: ServerId, uid: UserId): (m: Option<MembershipRow>)
    ensures m.Some? <==> (uid, sid) in st.memberships
    ensures m.Some? ==> m.value == MembershipRow(uid, sid, st.memberships[(uid, sid)])
  {
    if (uid, sid) in st.memberships then Some(MembershipRow(uid, sid, st.memberships[(uid, sid)])) else None
  }

  /** `ServerMembershipDetailView.get`. */
  function GetMembership(st: Store, actor: UserId, sid: ServerId, uid: UserId): (res: (Reply, Option<Role>))
    requires Wellformed(st)
    ensures (uid, sid) !in st.memberships ==> res == (Reply(NotFound, Error(MembershipMissing)), None)
    ensures res.0.status == Ok <==>
      (uid, sid) in st.memberships
      && (actor == uid || actor == st.servers[sid].owner || IsAdmin(st.memberships, actor, sid))
    ensures res.0.status == Ok ==> res == (Reply(Ok, Message(Success)), Some(st.memberships[(uid, sid)]))
    ensures (uid, sid) in st.memberships && res.0.status != Ok ==> res == (Reply(Forbidden, Error(PermissionDenied)), None)
  {
    match GetMembershipRow(st, sid, uid)
    case None => (Reply(NotFound, Error(MembershipMissing)), None)
    case Some(m) =>
      if !PermissionIn(st, m, actor, View).allowed then (Reply(Forbidden, Error(PermissionDenied)), None)
      else (Reply(Ok, Message(Success)), Some(m.role))
  }

  /**
   * A request body as the (key, value) entries sent, in order. A key may be sent more
   * than once; the parsed body keeps the last value and lists each key once, where it
   * was first sent.
   */
  type RequestData = seq<(string, string)>

  /** `key` is among the body's keys. */
  predicate HasKey(data: RequestData, key: string) {
    exists i :: 0 <= i < |data| && data[i].0 == key
  }

  /** Entry `i` is the last one sent with `key`. */
  ghost predicate LastSent(data: RequestData, key: string, i: int) {
    0 <= i < |data| && data[i].0 == key && forall j :: i < j < |data| ==> data[j].0 != key
  }

  /** Key `a` is sent before any entry with key `b`. */
  ghost predicate SentBefore(data: RequestData, a: string, b: string) {
    exists p :: 0 <= p < |data| && data[p].0 == a && forall q :: 0 <= q <= p ==> data[q].0 != b
  }

  /** `request.data.get(key)`: the value of the last entry sent with that key. */
  function Get(data: RequestData, key: string): (v: Option<string>)
    ensures v.Some? <==> HasKey(data, key)
    ensures v.Some? ==> exists i :: LastSent(data, key, i) && data[i].1 == v.value
  {
    if |data| == 0 then None
    else if data[|data| - 1].0 == key then
      assert LastSent(data, key, |data| - 1);
      Some(data[|data| - 1].1)
    else
      var init := data[..|data| - 1];
      var v := Get(init, key);
      assert forall i :: 0 <= i < |init| ==> init[i] == data[i];
      assert v.Some? ==> exists i :: LastSent(data, key, i) && data[i].1 == v.value by {
        if v.Some? {
          var i :| LastSent(init, key, i) && init[i].1 == v.value;
          assert LastSent(data, key, i);
        }
      }
      v
  }

  /** The keys of `request.data` other than "role": each once, in the order first sent. */
  function InvalidFields(data: RequestData): (bad: seq<string>)
    ensures forall f :: f in bad <==> f != "role" && HasKey(data, f)
    ensures forall i, j :: 0 <= i < j < |bad| ==> bad[i] != bad[j]
    ensures forall i, j :: 0 <= i < j < |bad| ==> SentBefore(data, bad[i], bad[j])
  {
    if |data| == 0 then []
    else
      var init := data[..|data| - 1];
      var rest := InvalidFields(init);
      var k := data[|data| - 1].0;
      assert forall i :: 0 <= i < |init| ==> init[i] == data[i];
      assert forall f :: HasKey(data, f) <==> HasKey(init, f) || f == k by {
        forall f | HasKey(data, f) && f != k ensures HasKey(init, f) {
          var i :| 0 <= i < |data| && data[i].0 == f;
          assert init[i].0 == f;
        }
      }
      assert forall a, b :: SentBefore(init, a, b) ==> SentBefore(data, a, b) by {
        forall a, b | SentBefore(init, a, b) ensures SentBefore(data, a, b) {
          var p :| 0 <= p < |init| && init[p].0 == a && forall q :: 0 <= q <= p ==> init[q].0 != b;
          assert data[p].0 == a;
        }
      }
      if k == "role" || HasKey(init, k) then rest
      else
        assert forall f :: f in rest ==> SentBefore(data, f, k) by {
          forall f | f in rest ensures SentBefore(data, f, k) {
            var p :| 0 <= p < |init| && init[p].0 == f;
            assert data[p].0 == f;
            assert forall q :: 0 <= q <= p ==> data[q].0 != k by {
              forall q | 0 <= q <= p ensures data[q].0 != k {
                assert init[q].0 == data[q].0;
              }
            }
          }
        }
        rest + [k]
  }

  /** `error_messages.get(reason, "Permission denied.")` in `patch`, keyed by the reason string. */
  function PatchDeniedText(reason: string): string {
    if reason == "admin_cannot_modify_owner" then AdminCannotModifyOwnerText
    else if reason == "no_permission" then PatchNoPermissionText
    else PermissionDenied
  }

  /** `error_messages.get(reason, "Permission denied.")` in `delete`, keyed by the reason string. */
  function RemoveDeniedText(reason: string): string {
    if reason == "admin_cannot_modify_owner" then AdminCannotRemoveOwner
    else if reason == "no_permission" then RemoveNoPermissionText
    else PermissionDenied
  }

  /**
   * `ServerMembershipDetailView.patch`. The permission step calls `check_permission`
   * without an action, so it checks the "view" action.
   */
  function PatchMembershipStep(st: Store, actor: UserId, sid: ServerId, uid: UserId, data: RequestData): (res: (Reply, Store))
    requires Wellformed(st)
    ensures (uid, sid) !in st.memberships ==> res == (Reply(NotFound, Error(MembershipMissing)), st)
    ensures res.0.status != Ok ==> res.1 == st
    ensures (uid, sid) in st.memberships ==>
      var m := MembershipRow(uid, sid, st.memberships[(uid, sid)]);
      var d := PermissionIn(st, m, actor, View);
      && (!d.allowed ==> res == (Reply(Forbidden, Error(PatchDeniedText(ReasonCode(d.reason)))), st))
      && (d.allowed && m.role == Owner ==> res == (Reply(BadRequest, Error(OwnerRoleFixed)), st))
      && (d.allowed && m.role != Owner && uid == actor && Get(data, "role").Some? ==>
            res == (Reply(BadRequest, Error(OwnRoleFixed)), st))
      && (d.allowed && m.role != Owner && !(uid == actor && Get(data, "role").Some?) && InvalidFields(data) != [] ==>
            res == (Reply(BadRequest, Error(InvalidFieldsText(InvalidFields(data)))), st))
    ensures res.0.status == Ok ==>
      && (uid, sid) in st.memberships && st.memberships[(uid, sid)] != Owner
      && (actor == uid || actor == st.servers[sid].owner || IsAdmin(st.memberships, actor, sid))
      && InvalidFields(data) == []
      && res.0 == Reply(Ok, Message(RoleUpdated))
      && res.1.servers == st.servers
      && res.1.memberships.Keys == st.memberships.Keys
      && (forall k :: k in st.memberships && k != (uid, sid) ==> res.1.memberships[k] == st.memberships[k])
      && (Get(data, "role").None? ==> res.1 == st)
      && (Get(data, "role").Some? ==> ParseRole(Get(data, "role").value) == Some(res.1.memberships[(uid, sid)]))
    ensures res.0.status == Ok <==>
      && (uid, sid) in st.memberships && st.memberships[(uid, sid)] != Owner
      && (actor == uid || actor == st.servers[sid].owner || IsAdmin(st.memberships, actor, sid))
      && !(uid == actor && Get(data, "role").Some?)
      && InvalidFields(data) == []
      && (Get(data, "role").None? || ParseRole(Get(data, "role").value).Some?)
    ensures (uid, sid) in st.memberships && st.memberships[(uid, sid)] != Owner
      && (actor == uid || actor == st.servers[sid].owner || IsAdmin(st.memberships, actor, sid))
      && !(uid == actor && Get(data, "role").Some?) && InvalidFields(data) == []
      && Get(data, "role").Some? && ParseRole(Get(data, "role").value).None?
      ==> res == (Reply(BadRequest, Error(RoleUpdateFailed)), st)
    ensures Wellformed(res.1)
    ensures OwnerHasOwnerRole(st) ==> OwnerHasOwnerRole(res.1)
  {
    match GetMembershipRow(st, sid, uid)
    case None => (Reply(NotFound, Error(MembershipMissing)), st)
    case Some(m) =>
      var d := PermissionIn(st, m, actor, View);
      if !d.allowed then (Reply(Forbidden, Error(PatchDeniedText(ReasonCode(d.reason)))), st)
      else if m.role == Owner then (Reply(BadRequest, Error(OwnerRoleFixed)), st)
      else if m.user == actor && Get(data, "role").Some? then (Reply(BadRequest, Error(OwnRoleFixed)), st)
      else
        var invalid := InvalidFields(data);
        if invalid != [] then (Reply(BadRequest, Error(InvalidFieldsText(invalid))), st)
        else
          match Get(data, "role")
          case None => (Reply(Ok, Message(RoleUpdated)), st)
          case Some(v) =>
            match ParseRole(v)
            case None => (Reply(BadRequest, Error(RoleUpdateFailed)), st)
            case Some(role) => (Reply(Ok, Message(RoleUpdated)), SetRole(st, uid, sid, role))
  }

  method PatchMembership(db: ServerDb, actor: UserId, sid: ServerId, uid: UserId, data: RequestData) returns (r: Reply)
    requires db.Valid()
    modifies db
    ensures (r, db.State()) == PatchMembershipStep(old(db.State()), actor, sid, uid, data)
  {
    var found := GetMembershipRow(db.State(), sid, uid);
    if found.None? {
      return Reply(NotFound, Error(MembershipMissing));
    }
    var m := found.value;
    var d := PermissionIn(db.State(), m, actor, View);
    if !d.allowed {
      return Reply(Forbidden, Error(PatchDeniedText(ReasonCode(d.reason))));
    }
    if m.role == Owner {
      return Reply(BadRequest, Error(OwnerRoleFixed));
    }
    if m.user == actor && Get(data, "role").Some? {
      return Reply(BadRequest, Error(OwnRoleFixed));
    }
    var invalid := InvalidFields(data);
    if invalid != [] {
      return Reply(BadRequest, Error(InvalidFieldsText(invalid)));
    }
    var submitted := Get(data, "role");
    if submitted.None? {
      return Reply(Ok, Message(RoleUpdated));
    }
    var role := ParseRole(submitted.value);
    if role.None? {
      return Reply(BadRequest, Error(RoleUpdateFailed));
    }
    db.SaveRole(uid, sid, role.value);
    r := Reply(Ok, Message(RoleUpdated));
  }

  /**
   * `ServerMembershipDetailView.delete`. `targetName` is the display name of the
   * membership's user, read from the user registry for the reply.
   */
  function RemoveMembershipStep(st: Store, actor: UserId, sid: ServerId, uid: UserId, targetName: string): (res: (Reply, Store))
    requires Wellformed(st)
    ensures (uid, sid) !in st.memberships ==> res == (Reply(NotFound, Error(MembershipMissing)), st)
    ensures res.0.status == Ok <==>
      (uid, sid) in st.memberships && st.memberships[(uid, sid)] != Owner
      && (actor == uid || actor == st.servers[sid].owner || IsAdmin(st.memberships, actor, sid))
    ensures (uid, sid) in st.memberships && st.memberships[(uid, sid)] != Owner
      && actor != uid && actor != st.servers[sid].owner && !IsAdmin(st.memberships, actor, sid)
      ==> res == (Reply(Forbidden, Error(RemoveNoPermissionText)), st)
    ensures res.0.status != Ok ==> res.1 == st
    ensures res.0.status == Ok ==>
      && res.0.body == Message(if actor == uid then LeftText(st.servers[sid].name) else RemovedText(targetName, st.servers[sid].name))
      && res.1 == DeleteMembershipRow(st, uid, sid)
      && MemberCount(res.1, sid) == MemberCount(st, sid) - 1
    ensures (uid, sid) in st.memberships && st.memberships[(uid, sid)] == Owner ==>
      res.0 == (if actor != uid && actor != st.servers[sid].owner && IsAdmin(st.memberships, actor, sid)
                then Reply(Forbidden, Error(AdminCannotRemoveOwner))
                else if actor == uid || actor == st.servers[sid].owner then Reply(BadRequest, Error(OwnerCannotLeave))
                else Reply(Forbidden, Error(RemoveNoPermissionText)))
    ensures Wellformed(res.1)
    ensures OwnerHasOwnerRole(st) ==> OwnerHasOwnerRole(res.1)
  {
    match GetMembershipRow(st, sid, uid)
    case None => (Reply(NotFound, Error(MembershipMissing)), st)
    case Some(m) =>
      var d := PermissionIn(st, m, actor, Delete);
      if !d.allowed then (Reply(Forbidden, Error(RemoveDeniedText(ReasonCode(d.reason)))), st)
      else if m.role == Owner then (Reply(BadRequest, Error(OwnerCannotLeave)), st)
      else
        var name := st.servers[sid].name;
        var text := if m.user == actor then LeftText(name) else RemovedText(targetName, name);
        CountAfterRemove(st.memberships, uid, sid);
        (Reply(Ok, Message(text)), DeleteMembershipRow(st, uid, sid))
  }

  method RemoveMembership(db: ServerDb, actor: UserId, sid: ServerId, uid: UserId, targetName: string) returns (r: Reply)
    requires db.Valid()
    modifies db
    ensures (r, db.State()) == RemoveMembershipStep(old(db.State()), actor, sid, uid, targetName)
  {
    var found := GetMembershipRow(db.State(), sid, uid);
    if found.None? {
      return Reply(NotFound, Error(MembershipMissing));
    }
    var m := found.value;
    var d := PermissionIn(db.State(), m, actor, Delete);
    if !d.allowed {
      return Reply(Forbidden, Error(RemoveDeniedText(ReasonCode(d.reason))));
    }
    if m.role == Owner {
      return Reply(BadRequest, Error(OwnerCannotLeave));
    }
    var name := db.servers[sid].name;
    var text := if m.user == actor then LeftText(name) else RemovedText(targetName, name);
    db.DeleteMembership(uid, sid);
    r := Reply(Ok, Message(text));
  }
}
