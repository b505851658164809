/**
 * Properties that relate several handlers of servers/views.py: which operation undoes
 * which, the consequences of the permission table as the handlers use it, and the
 * invariants of the server and membership tables over any sequence of requests.
 */
module ServerProperties {
  import opened Wrappers
  import opened Identifiers
  import opened Text
  import opened ServerModels
  import opened Permissions
  import opened ServerViews

  // ---------------------------------------------------------------------------------
  // Inverses
  // ---------------------------------------------------------------------------------

  /** Leaving right after joining restores both tables. */
  lemma {:induction false} JoinThenLeave(st: Store, actor: UserId, sid: ServerId, code: Option<string>, name: string)
    requires Wellformed(st)
    requires JoinStep(st, actor, sid, code).0.status == Created
    ensures RemoveMembershipStep(JoinStep(st, actor, sid, code).1, actor, sid, actor, name)
      == (Reply(Ok, Message(LeftText(st.servers[sid].name))), st)
  {
    var st1 := JoinStep(st, actor, sid, code).1;
    assert st1.memberships - {(actor, sid)} == st.memberships;
  }

  /** Deleting a server right after its creator created it restores both tables. */
  lemma {:induction false} CreateThenDelete(st: Store, actor: UserId, id: ServerId, input: ServerInput)
    requires Wellformed(st) && id !in st.servers
    requires InvalidServerFields(input, true) == {}
    ensures DeleteServerStep(CreateServerStep(st, actor, id, input).1, actor, id) == (Reply(NoContent, NoBody), st)
  {
    var st1 := CreateServerStep(st, actor, id, input).1;
    var st2 := DeleteServerStep(st1, actor, id).1;
    assert st2.servers == st.servers;
    assert st2.memberships == st.memberships by {
      forall k | k in st.memberships ensures k.1 != id {
      }
    }
  }

  /** A body whose only key is "role". */
  lemma RoleOnlyData(v: string)
    ensures Get([("role", v)], "role") == Some(v)
    ensures InvalidFields([("role", v)]) == []
  {
  }

  /** A repeated key: its last value is the one read, and it is reported once, where first sent. */
  lemma RepeatedKeys()
    ensures Get([("role", "owner"), ("role", "member")], "role") == Some("member")
    ensures InvalidFields([("name", "a"), ("role", "admin"), ("bio", "b"), ("name", "c")]) == ["name", "bio"]
  {
    var d1: RequestData := [("name", "a")];
    var d2 := d1 + [("role", "admin")];
    var d3 := d2 + [("bio", "b")];
    var d4 := d3 + [("name", "c")];
    assert d1[..0] == [] && d2[..1] == d1 && d3[..2] == d2 && d4[..3] == d3;
    assert InvalidFields(d1) == ["name"];
    assert InvalidFields(d2) == ["name"];
    assert !HasKey(d2, "bio");
    assert InvalidFields(d3) == ["name", "bio"];
    assert HasKey(d3, "name") by { assert d3[0].0 == "name"; }
    assert InvalidFields(d4) == ["name", "bio"];
    assert d4 == [("name", "a"), ("role", "admin"), ("bio", "b"), ("name", "c")];
  }

  /** A role change by an owner or admin is undone by changing the role back. */
  lemma {:induction false} RoleChangeUndone(st: Store, actor: UserId, sid: ServerId, uid: UserId, role: Role)
    requires Wellformed(st)
    requires (uid, sid) in st.memberships && st.memberships[(uid, sid)] != Owner && role != Owner
    requires actor != uid && (actor == st.servers[sid].owner || IsAdmin(st.memberships, actor, sid))
    ensures PatchMembershipStep(st, actor, sid, uid, [("role", RoleName(role))]).0 == Reply(Ok, Message(RoleUpdated))
    ensures var st1 := PatchMembershipStep(st, actor, sid, uid, [("role", RoleName(role))]).1;
      PatchMembershipStep(st1, actor, sid, uid, [("role", RoleName(st.memberships[(uid, sid)]))])
        == (Reply(Ok, Message(RoleUpdated)), st)
  {
    RoleOnlyData(RoleName(role));
    RoleOnlyData(RoleName(st.memberships[(uid, sid)]));
    var previous := st.memberships[(uid, sid)];
    var st1 := PatchMembershipStep(st, actor, sid, uid, [("role", RoleName(role))]).1;
    assert st1 == SetRole(st, uid, sid, role);
    assert IsAdmin(st.memberships, actor, sid) ==> IsAdmin(st1.memberships, actor, sid);
    var st2 := PatchMembershipStep(st1, actor, sid, uid, [("role", RoleName(previous))]).1;
    assert st2 == SetRole(st1, uid, sid, previous);
    assert st2.memberships == st.memberships;
  }

  // ---------------------------------------------------------------------------------
  // The permission table as the handlers use it
  // ---------------------------------------------------------------------------------

  /**
   * The role patch checks the "view" action, so its reply is never the
   * "Admins cannot modify the owner's membership." error.
   */
  lemma {:induction false} PatchNeverSaysAdminCannotModifyOwner(st: Store, actor: UserId, sid: ServerId, uid: UserId, data: RequestData)
    requires Wellformed(st)
    ensures PatchMembershipStep(st, actor, sid, uid, data).0.body != Error(AdminCannotModifyOwnerText)
  {
  }

  /** An admin who patches the owner's membership passes the permission step and gets the owner-role error. */
  lemma AdminPatchingOwnerGetsRoleError(st: Store, actor: UserId, sid: ServerId, uid: UserId, data: RequestData)
    requires Wellformed(st)
    requires (uid, sid) in st.memberships && st.memberships[(uid, sid)] == Owner
    requires actor != uid && actor != st.servers[sid].owner && IsAdmin(st.memberships, actor, sid)
    ensures PatchMembershipStep(st, actor, sid, uid, data) == (Reply(BadRequest, Error(OwnerRoleFixed)), st)
  {
  }

  /**
   * The role patch accepts "owner": an owner can promote a member, after which the
   * server has two memberships with role "owner".
   */
  lemma SecondOwnerByPatch()
    ensures var st := Store(map[1 := Server("s", "", Public, None, 10)], map[(10, 1) := Owner, (20, 1) := Member]);
      var res := PatchMembershipStep(st, 10, 1, 20, [("role", "owner")]);
      && res.0 == Reply(Ok, Message(RoleUpdated))
      && res.1.memberships[(10, 1)] == Owner && res.1.memberships[(20, 1)] == Owner
  {
  }

  /** Once promoted to "owner", a membership's role can no longer be patched, not even by the owner. */
  lemma PromotedOwnerCannotBeDemoted(st: Store, actor: UserId, sid: ServerId, uid: UserId, data: RequestData)
    requires Wellformed(st)
    requires (uid, sid) in st.memberships && st.memberships[(uid, sid)] == Owner
    ensures PatchMembershipStep(st, actor, sid, uid, data).0.status != Ok
  {
  }

  /** A private server whose invite code is null cannot be joined with any code. */
  lemma PrivateWithoutCodeUnjoinable(st: Store, actor: UserId, sid: ServerId, code: Option<string>)
    requires Wellformed(st)
    requires sid in st.servers && st.servers[sid].visibility == Private && st.servers[sid].inviteCode.None?
    ensures JoinStep(st, actor, sid, code).0.status != Created
    ensures JoinStep(st, actor, sid, code).1 == st
  {
  }

  /**
   * The create serializer never writes an invite code, so a private server created
   * through the API cannot be joined by anyone.
   */
  lemma {:induction false} CreatedPrivateServerUnjoinable(st: Store, actor: UserId, id: ServerId, input: ServerInput, joiner: UserId, code: Option<string>)
    requires Wellformed(st) && id !in st.servers
    requires InvalidServerFields(input, true) == {} && input.visibility == Some(Some("private"))
    ensures var st1 := CreateServerStep(st, actor, id, input).1;
      JoinStep(st1, joiner, id, code).0.status != Created
  {
  }

  /** A second join of the same user is rejected and changes nothing; the pair stays unique. */
  lemma {:induction false} JoinTwiceRejected(st: Store, actor: UserId, sid: ServerId, code: Option<string>, code2: Option<string>)
    requires Wellformed(st)
    requires JoinStep(st, actor, sid, code).0.status == Created
    ensures var st1 := JoinStep(st, actor, sid, code).1;
      JoinStep(st1, actor, sid, code2) == (Reply(BadRequest, Error(AlreadyMember)), st1)
  {
  }

  // ---------------------------------------------------------------------------------
  // Every handler that changes the tables, as one request language
  // ---------------------------------------------------------------------------------

  datatype Request =
    | CreateServerReq(actor: UserId, input: ServerInput)
    | PatchServerReq(actor: UserId, sid: ServerId, input: ServerInput)
    | DeleteServerReq(actor: UserId, sid: ServerId)
    | JoinReq(actor: UserId, sid: ServerId, inviteCode: Option<string>)
    | PatchMembershipReq(actor: UserId, sid: ServerId, uid: UserId, data: RequestData)
    | RemoveMembershipReq(actor: UserId, sid: ServerId, uid: UserId, targetName: string)

  /** A bound on a finite set of keys. */
  ghost function KeyBound(keys: set<ServerId>): (b: ServerId)
    ensures forall k :: k in keys ==> k < b
    decreases keys
  {
    if keys == {} then 0
    else
      var x :| x in keys;
      var rest := KeyBound(keys - {x});
      assert forall k :: k in keys ==> k == x || k in keys - {x};
      if x < rest then rest else x + 1
  }

  /** The key the database gives a new server row: any key not yet used. */
  ghost function FreshServerId(servers: map<ServerId, Server>): (id: ServerId)
    ensures id !in servers
  {
    KeyBound(servers.Keys)
  }

  predicate IsRejection(s: Status) {
    s == BadRequest || s == Forbidden || s == NotFound
  }

  /** One request. */
  ghost function Step(st: Store, req: Request): (res: (Reply, Store))
    requires Wellformed(st)
    ensures Wellformed(res.1)
    ensures OwnerHasOwnerRole(st) ==> OwnerHasOwnerRole(res.1)
    ensures IsRejection(res.0.status) ==> res.1 == st
    ensures res.1.servers != st.servers ==> req.CreateServerReq? || req.PatchServerReq? || req.DeleteServerReq?
  {
    match req
    case CreateServerReq(actor, input) => CreateServerStep(st, actor, FreshServerId(st.servers), input)
    case PatchServerReq(actor, sid, input) => PatchServerStep(st, actor, sid, input)
    case DeleteServerReq(actor, sid) => DeleteServerStep(st, actor, sid)
    case JoinReq(actor, sid, code) => JoinStep(st, actor, sid, code)
    case PatchMembershipReq(actor, sid, uid, data) => PatchMembershipStep(st, actor, sid, uid, data)
    case RemoveMembershipReq(actor, sid, uid, name) => RemoveMembershipStep(st, actor, sid, uid, name)
  }

  /** The tables after a sequence of requests. */
  ghost function Run(st: Store, reqs: seq<Request>): (r: Store)
    requires Wellformed(st)
    ensures Wellformed(r)
    decreases |reqs|
  {
    if |reqs| == 0 then st else Run(Step(st, reqs[0]).1, reqs[1..])
  }

  const Empty := Store(map[], map[])

  /** From empty tables, every server's owner holds an "owner" membership after any requests. */
  lemma {:induction false} RunPreservesOwnerInvariant(st: Store, reqs: seq<Request>)
    requires Wellformed(st) && OwnerHasOwnerRole(st)
    ensures OwnerHasOwnerRole(Run(st, reqs))
    decreases |reqs|
  {
    if |reqs| > 0 {
      RunPreservesOwnerInvariant(Step(st, reqs[0]).1, reqs[1..]);
    }
  }

  lemma OwnerInvariantFromEmpty(reqs: seq<Request>)
    ensures OwnerHasOwnerRole(Run(Empty, reqs))
  {
    RunPreservesOwnerInvariant(Empty, reqs);
  }

  /** A sequence of rejected requests leaves the tables as they were. */
  lemma {:induction false} RejectedRunChangesNothing(st: Store, reqs: seq<Request>)
    requires Wellformed(st)
    requires forall i :: 0 <= i < |reqs| ==> IsRejection(Step(st, reqs[i]).0.status)
    ensures Run(st, reqs) == st
    decreases |reqs|
  {
    if |reqs| > 0 {
      assert Step(st, reqs[0]).1 == st;
      assert forall i :: 0 <= i < |reqs[1..]| ==> reqs[1..][i] == reqs[i + 1];
      RejectedRunChangesNothing(st, reqs[1..]);
    }
  }
}
