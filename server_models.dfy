/**
 * The server registry and the membership ledger (servers/models.py).
 *
 * A `Store` is the value of the two tables; `ServerDb` is the mutable database object that
 * the request handlers change. Memberships are keyed by the pair (user, server), which is
 * the table's `unique_together` constraint; the value is the membership's role.
 */
module ServerModels {
  import opened Wrappers
  import opened Identifiers

  datatype Visibility = Public | Private

  /** The model field's default. */
  const DefaultVisibility: Visibility := Public

  /** The stored choice value. */
  function VisibilityName(v: Visibility): (s: string)
    ensures ParseVisibility(s) == Some(v)
  {
    match v
    case Public => "public"
    case Private => "private"
  }

  /** Choice validation: only the two stored values are accepted. */
  function ParseVisibility(s: string): (r: Option<Visibility>)
    ensures r.Some? <==> s == "public" || s == "private"
  {
    if s == "public" then Some(Public)
    else if s == "private" then Some(Private)
    else None
  }

  datatype Role = Owner | Admin | Moderator | Member

  /** The model field's default. */
  const DefaultRole: Role := Member

  /** The stored choice value. */
  function RoleName(r: Role): (s: string)
    ensures ParseRole(s) == Some(r)
  {
    match r
    case Owner => "owner"
    case Admin => "admin"
    case Moderator => "moderator"
    case Member => "member"
  }

  /** Choice validation: exactly the four stored values are accepted, "owner" included. */
  function ParseRole(s: string): (r: Option<Role>)
    ensures r.Some? <==> s == "owner" || s == "admin" || s == "moderator" || s == "member"
  {
    if s == "owner" then Some(Owner)
    else if s == "admin" then Some(Admin)
    else if s == "moderator" then Some(Moderator)
    else if s == "member" then Some(Member)
    else None
  }

  /** Different roles are stored as different strings. */
  lemma RoleNameInjective(a: Role, b: Role)
    requires RoleName(a) == RoleName(b)
    ensures a == b
  {
  }

  const NameMaxLength: nat := 100

  /** One row of the server table (icon and timestamps are not modelled). */
  datatype Server = Server(
    name: string,
    description: string,
    visibility: Visibility,
    inviteCode: Option<string>,
    owner: UserId)

  type Memberships = map<(UserId, ServerId), Role>

  datatype Store = Store(servers: map<ServerId, Server>, memberships: Memberships)

  /** Foreign-key integrity: every membership refers to an existing server. */
  ghost predicate Wellformed(st: Store) {
    forall k :: k in st.memberships ==> k.1 in st.servers
  }

  /** Every server's owner holds a membership in it whose role is "owner". */
  ghost predicate OwnerHasOwnerRole(st: Store) {
    forall s :: s in st.servers ==>
      var o := st.servers[s].owner;
      (o, s) in st.memberships && st.memberships[(o, s)] == Owner
  }

  /** The membership rows of server `s`. */
  function RowsOf(ms: Memberships, s: ServerId): set<(UserId, ServerId)> {
    set k | k in ms.Keys && k.1 == s
  }

  /** A subset is no larger than its superset. */
  lemma {:induction false} SubsetSize<T>(a: set<T>, b: set<T>)
    requires a <= b
    ensures |a| <= |b|
    decreases |a|
  {
    if a != {} {
      var x :| x in a;
      SubsetSize(a - {x}, b - {x});
    }
  }

  /** `Server.get_member_count`: the number of membership rows of the server. */
  function MemberCount(st: Store, s: ServerId): (n: nat)
    ensures n <= |st.memberships|
    ensures n == 0 <==> forall u :: (u, s) !in st.memberships
    ensures forall u :: (u, s) in st.memberships ==> n >= 1
  {
    var rows := RowsOf(st.memberships, s);
    SubsetSize(rows, st.memberships.Keys);
    assert forall u :: (u, s) in st.memberships ==> (u, s) in rows;
    |rows|
  }

  /** Adding a row to a server that did not have it raises its count by one. */
  lemma {:induction false} CountAfterAdd(ms: Memberships, u: UserId, s: ServerId, role: Role)
    requires (u, s) !in ms
    ensures |RowsOf(ms[(u, s) := role], s)| == |RowsOf(ms, s)| + 1
  {
    assert RowsOf(ms[(u, s) := role], s) == RowsOf(ms, s) + {(u, s)};
  }

  /** Removing a row of a server lowers its count by one. */
  lemma {:induction false} CountAfterRemove(ms: Memberships, u: UserId, s: ServerId)
    requires (u, s) in ms
    ensures |RowsOf(ms - {(u, s)}, s)| == |RowsOf(ms, s)| - 1
  {
    assert RowsOf(ms, s) == RowsOf(ms - {(u, s)}, s) + {(u, s)};
  }

  /**
   * `Server.save`: write the row, then `get_or_create` the owner's membership with the
   * default role "owner". The default is used only when the row is inserted.
   */
  function Save(st: Store, id: ServerId, srv: Server): (r: Store)
    ensures r.servers == st.servers[id := srv]
    ensures (srv.owner, id) in r.memberships
    ensures (srv.owner, id) !in st.memberships ==> r.memberships[(srv.owner, id)] == Owner
    ensures forall k :: k in st.memberships ==> k in r.memberships && r.memberships[k] == st.memberships[k]
    ensures r.memberships.Keys <= st.memberships.Keys + {(srv.owner, id)}
  {
    var ms := if (srv.owner, id) in st.memberships then st.memberships
              else st.memberships[(srv.owner, id) := Owner];
    Store(st.servers[id := srv], ms)
  }

  /** Saving the same row twice is the same as saving it once. */
  lemma SaveIdempotent(st: Store, id: ServerId, srv: Server)
    ensures Save(Save(st, id, srv), id, srv) == Save(st, id, srv)
  {
  }

  /**
   * `ServerMembership.objects.create`: rejected (an integrity error) when the pair already
   * has a row, whatever the role asked for, or when the server does not exist.
   */
  function Insert(st: Store, u: UserId, s: ServerId, role: Role): (r: Option<Store>)
    ensures r.None? <==> (u, s) in st.memberships || s !in st.servers
    ensures r.Some? ==> r.value.servers == st.servers
    ensures r.Some? ==> r.value.memberships == st.memberships[(u, s) := role]
    ensures r.Some? ==> MemberCount(r.value, s) == MemberCount(st, s) + 1
  {
    if (u, s) in st.memberships || s !in st.servers then None
    else
      CountAfterAdd(st.memberships, u, s, role);
      Some(Store(st.servers, st.memberships[(u, s) := role]))
  }

  /** `server.delete()`: the server row goes, and the cascade takes all its memberships. */
  function DeleteServerRow(st: Store, id: ServerId): (r: Store)
    ensures r.servers == st.servers - {id}
    ensures RowsOf(r.memberships, id) == {}
    ensures forall k :: k in st.memberships && k.1 != id ==> k in r.memberships && r.memberships[k] == st.memberships[k]
    ensures r.memberships.Keys <= st.memberships.Keys
  {
    Store(st.servers - {id}, map k | k in st.memberships && k.1 != id :: st.memberships[k])
  }

  /** `membership.delete()`. */
  function DeleteMembershipRow(st: Store, u: UserId, s: ServerId): (r: Store)
    ensures r.servers == st.servers
    ensures r.memberships.Keys == st.memberships.Keys - {(u, s)}
    ensures forall k :: k in r.memberships ==> r.memberships[k] == st.memberships[k]
  {
    Store(st.servers, st.memberships - {(u, s)})
  }

  /** `membership.save()` after its role was set. */
  function SetRole(st: Store, u: UserId, s: ServerId, role: Role): (r: Store)
    requires (u, s) in st.memberships
    ensures r.servers == st.servers
    ensures r.memberships.Keys == st.memberships.Keys
    ensures r.memberships[(u, s)] == role
    ensures forall k :: k in st.memberships && k != (u, s) ==> r.memberships[k] == st.memberships[k]
  {
    Store(st.servers, st.memberships[(u, s) := role])
  }

  /** The two tables as a mutable database. */
  class ServerDb {
    var servers: map<ServerId, Server>
    var memberships: Memberships

    function State(): Store
      reads this
    {
      Store(servers, memberships)
    }

    ghost predicate Valid()
      reads this
    {
      Wellformed(State())
    }

    constructor ()
      ensures Valid()
      ensures servers == map[] && memberships == map[]
    {
      servers := map[];
      memberships := map[];
    }

    /** `Server.save`. */
    method SaveServer(id: ServerId, srv: Server)
      requires Valid()
      modifies this
      ensures Valid()
      ensures State() == Save(old(State()), id, srv)
    {
      servers := servers[id := srv];
      if (srv.owner, id) !in memberships {
        memberships := memberships[(srv.owner, id) := Owner];
      }
    }

    /** `ServerMembership.objects.create`; `created` is false on an integrity error. */
    method CreateMembership(u: UserId, s: ServerId, role: Role) returns (created: bool)
      requires Valid()
      modifies this
      ensures Valid()
      ensures created == Insert(old(State()), u, s, role).Some?
      ensures State() == if created then Insert(old(State()), u, s, role).value else old(State())
    {
      if (u, s) in memberships || s !in servers {
        return false;
      }
      memberships := memberships[(u, s) := role];
      created := true;
    }

    /** `server.delete()` with its cascade. */
    method DeleteServer(id: ServerId)
      requires Valid()
      modifies this
      ensures Valid()
      ensures State() == DeleteServerRow(old(State()), id)
    {
      servers := servers - {id};
      memberships := map k | k in memberships && k.1 != id :: memberships[k];
    }

    /** `membership.delete()`. */
    method DeleteMembership(u: UserId, s: ServerId)
      requires Valid()
      modifies this
      ensures Valid()
      ensures State() == DeleteMembershipRow(old(State()), u, s)
    {
      memberships := memberships - {(u, s)};
    }

    /** Saving a membership whose role was changed. */
    method SaveRole(u: UserId, s: ServerId, role: Role)
      requires Valid() && (u, s) in memberships
      modifies this
      ensures Valid()
      ensures State() == SetRole(old(State()), u, s, role)
    {
      memberships := memberships[(u, s) := role];
    }
  }
}
