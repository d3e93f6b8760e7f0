/** Who may use the chat, decided twice: by the HTTP routes (routes/chatRoutes.js)
    and by the socket server (server.js), both from the team context that
    middleware/teamRoleMiddleware.js resolves. */
module ChatAccess {
  import opened Wrappers
  import opened Texts
  import opened TeamPermissions
  import opened PermissionChecks

  type Id = string

  datatype User = User(id: Id, roles: seq<string>, email: string)

  datatype CustomRole = CustomRole(permissions: seq<string>, isArchived: bool)

  /** An accepted team membership as it is stored. */
  datatype MemberRow = MemberRow(supplierId: Id, roles: RoleInput, role: RoleInput, customRoles: seq<CustomRole>)

  /** What the database says about a user: their own supplier profile, and the
      accepted membership found by e-mail. */
  datatype Records = Records(hasProfile: bool, member: Option<MemberRow>)

  datatype Context = Context(isOwner: bool, isPlatformAdmin: bool, supplierId: Option<Id>, permissions: set<string>)

  /** A database lookup may fail. */
  datatype Lookup<+T> = Found(value: T) | Failed

  // ----- The team context

  function MemberRolesOf(row: MemberRow): seq<string> {
    var roles := ToRoleArray(row.roles);
    if roles != [] then roles else ToRoleArray(row.role)
  }

  function ActiveLists(roles: seq<CustomRole>): seq<seq<string>> {
    if roles == [] then []
    else if roles[0].isArchived then ActiveLists(roles[1..])
    else [roles[0].permissions] + ActiveLists(roles[1..])
  }

  function OwnerContext(supplierId: Id): Context {
    Context(true, false, Some(supplierId), {"*"})
  }

  function MemberPermissions(table: RoleTable, row: MemberRow): set<string> {
    PermissionsForMember(table, AsInput(MemberRolesOf(row)), ActiveLists(row.customRoles))
  }

  function TeamContext(table: RoleTable, user: User, db: Records): Option<Context> {
    if "admin" in user.roles then
      if db.hasProfile then Some(OwnerContext(user.id)) else Some(Context(true, true, None, {"*"}))
    else if db.hasProfile then Some(OwnerContext(user.id))
    else if user.email == "" || db.member.None? then None
    else
      Some(Context(false, false, Some(db.member.value.supplierId), MemberPermissions(table, db.member.value)))
  }

  /** An owner's account is their own or none; a member always has one. */
  predicate Resolved(userId: Id, context: Option<Context>) {
    context.Some? ==>
      if context.value.isOwner then context.value.supplierId in {None, Some(userId)}
      else context.value.supplierId.Some?
  }

  lemma TeamContextResolved(table: RoleTable, user: User, db: Records)
    ensures Resolved(user.id, TeamContext(table, user, db))
    ensures var c := TeamContext(table, user, db);
            c.Some? && c.value.isOwner ==> Grants(c.value.permissions, "chat.view")
  {
  }

  // ----- The HTTP side

  datatype HttpOutcome = Next | NotAMember | DeniedByRole | LookupError

  function RequireTeamPermission(lookup: Lookup<Option<Context>>, key: string): HttpOutcome {
    match lookup
    case Failed => LookupError
    case Found(context) =>
      if context.None? || context.value.supplierId.None? then NotAMember
      else if Grants(context.value.permissions, key) then Next
      else DeniedByRole
  }

  function Attached(userId: Id, lookup: Lookup<Option<Context>>): RequestFields {
    match lookup
    case Failed => Fields(None, false)
    case Found(None) => Fields(None, false)
    case Found(Some(c)) => Fields(c.supplierId, c.supplierId.Some? && c.supplierId != Some(userId))
  }

  function HttpGate(viaMembership: bool, lookup: Lookup<Option<Context>>): HttpOutcome {
    if viaMembership then RequireTeamPermission(lookup, "chat.view") else Next
  }

  /** The fields the chat routes keep on a request. */
  class Request {
    const user: User
    var supplierId: Option<Id>
    var viaMembership: bool

    constructor (user: User)
      ensures this.user == user && supplierId == None && !viaMembership
    {
      this.user := user;
      supplierId, viaMembership := None, false;
    }

    method AttachSupplierIdentity(lookup: Lookup<Option<Context>>)
      requires supplierId == None && !viaMembership
      modifies this
      ensures Fields(supplierId, viaMembership) == Attached(user.id, lookup)
      ensures supplierId == if lookup.Found? && lookup.value.Some? then lookup.value.value.supplierId else None
      ensures viaMembership <==> supplierId.Some? && supplierId.value != user.id
    {
      match lookup {
        case Failed =>
        case Found(context) =>
          var found := if context.Some? then context.value.supplierId else None;
          if found.Some? {
            supplierId := found;
          }
          viaMembership := found.Some? && found.value != user.id;
      }
    }

    /** The gate resolves the context again: nothing has attached it yet. */
    method RequireChatViewForMembers(lookup: Lookup<Option<Context>>) returns (o: HttpOutcome)
      ensures o == HttpGate(viaMembership, lookup)
      ensures o == LookupError <==> viaMembership && lookup == Failed
      ensures o == NotAMember <==>
                viaMembership && lookup.Found? && (lookup.value.None? || lookup.value.value.supplierId.None?)
      ensures o == DeniedByRole <==>
                && viaMembership && lookup.Found? && lookup.value.Some? && lookup.value.value.supplierId.Some?
                && !Grants(lookup.value.value.permissions, "chat.view")
    {
      if !viaMembership {
        return Next;
      }
      return RequireTeamPermission(lookup, "chat.view");
    }
  }

  datatype RequestFields = Fields(supplierId: Option<Id>, viaMembership: bool)

  predicate HttpAdmits(userId: Id, lookup: Lookup<Option<Context>>) {
    HttpGate(Attached(userId, lookup).viaMembership, lookup) == Next
  }

  // ----- The socket side

  datatype Access = Access(supplierId: Option<Id>, viaMembership: bool, canChat: bool)

  function ResolveChatAccess(context: Option<Context>): Access {
    match context
    case None => Access(None, false, true)
    case Some(c) =>
      if c.isOwner then Access(c.supplierId, false, true)
      else Access(c.supplierId, true, Grants(c.permissions, "chat.view"))
  }

  /** The two fields the connect-time lookup leaves on a socket. */
  datatype SocketFields = SocketFields(supplierId: Option<Id>, chatAllowed: Option<bool>)

  const UNSET := SocketFields(None, None)

  function AfterAccess(userId: Id, f: SocketFields, a: Access): SocketFields {
    SocketFields(
      if a.supplierId.Some? && a.supplierId != Some(userId) then a.supplierId else f.supplierId,
      if a.viaMembership then Some(a.canChat) else f.chatAllowed)
  }

  function AfterFailure(f: SocketFields): SocketFields {
    f.(chatAllowed := Some(f.chatAllowed.GetOr(true)))
  }

  function AfterLookup(userId: Id, lookup: Lookup<Option<Context>>): SocketFields {
    match lookup
    case Failed => AfterFailure(UNSET)
    case Found(context) => AfterAccess(userId, UNSET, ResolveChatAccess(context))
  }

  predicate SocketAdmits(f: SocketFields) {
    f.chatAllowed != Some(false)
  }

  // ----- Agreement

  /** A membership of one's own account that may not read the chat: the HTTP gate
      does not take it for a membership, the socket gate does. */
  predicate SelfMemberWithoutChat(userId: Id, lookup: Lookup<Option<Context>>) {
    && lookup.Found? && lookup.value.Some?
    && var c := lookup.value.value;
       !c.isOwner && c.supplierId == Some(userId) && !Grants(c.permissions, "chat.view")
  }

  /** For every user and every state of the database, and for a lookup that fails,
      the two gates agree exactly outside that one case. */
  lemma GatesAgreeExactly(userId: Id, lookup: Lookup<Option<Context>>)
    requires lookup.Found? ==> Resolved(userId, lookup.value)
    ensures (HttpAdmits(userId, lookup) <==> SocketAdmits(AfterLookup(userId, lookup)))
            <==> !SelfMemberWithoutChat(userId, lookup)
  {
  }

  /** The excepted case exists in the database: a user who is a member of themselves
      without any role. HTTP lets them in, the socket refuses them. */
  lemma GatesCanDiffer(user: User)
    requires "admin" !in user.roles && user.email != ""
    ensures var db := Records(false, Some(MemberRow(user.id, Nothing, Nothing, [])));
            var lookup := Found(TeamContext(map[], user, db));
            && SelfMemberWithoutChat(user.id, lookup)
            && HttpAdmits(user.id, lookup) && !SocketAdmits(AfterLookup(user.id, lookup))
  {
    var db := Records(false, Some(MemberRow(user.id, Nothing, Nothing, [])));
    var permissions := MemberPermissions(map[], db.member.value);
    assert permissions == {};
    assert !Grants(permissions, "chat.view");
  }

  lemma GatesAgree(table: RoleTable, user: User, db: Records)
    requires db.member.Some? ==> db.member.value.supplierId != user.id
    ensures var lookup := Found(TeamContext(table, user, db));
            HttpAdmits(user.id, lookup) <==> SocketAdmits(AfterLookup(user.id, lookup))
  {
  }

  /** The account a chat request is for (`chatIdentity`), and the one a chat event is
      for (`chatAccessId`): an admin's socket acts as the shared admin account. */
  function HttpIdentity(userId: Id, lookup: Lookup<Option<Context>>): Id {
    Attached(userId, lookup).supplierId.GetOr(userId)
  }

  function SocketIdentity(user: User, f: SocketFields, shared: Option<Id>): Id {
    if "admin" in user.roles then shared.GetOr(user.id) else f.supplierId.GetOr(user.id)
  }

  /** What the lookup of this user may give: it fails, or finds their context. */
  predicate LookupOf(table: RoleTable, user: User, db: Records, lookup: Lookup<Option<Context>>) {
    lookup in {Failed, Found(TeamContext(table, user, db))}
  }

  /** Both sides act as the same account, the supplier behind a membership or
      oneself, exactly unless the user is an admin and the shared account another's. */
  lemma IdentitiesAgree(
      table: RoleTable, user: User, db: Records, lookup: Lookup<Option<Context>>, shared: Option<Id>)
    requires LookupOf(table, user, db, lookup)
    ensures HttpIdentity(user.id, lookup) == SocketIdentity(user, AfterLookup(user.id, lookup), shared)
            <==> ("admin" in user.roles ==> shared in {None, Some(user.id)})
  {
    TeamContextResolved(table, user, db);
  }

  predicate ActiveGrant(role: CustomRole, key: string) {
    !role.isArchived && HasPermissionInSet(role.permissions, key)
  }

  predicate AnyActiveGrant(roles: seq<CustomRole>, key: string) {
    exists i :: 0 <= i < |roles| && ActiveGrant(roles[i], key)
  }

  /** A role written in the input allows the key by its own list. */
  ghost predicate SomeRoleAllows(table: RoleTable, input: RoleInput, key: string) {
    exists role :: Names(input, role) && role in table && HasPermissionInSet(table[role], key)
  }

  /** Some system role or some active custom role of the member allows the key. The
      column `role` only counts when nothing is written in the list of roles. */
  ghost predicate AllowedByRole(table: RoleTable, row: MemberRow, key: string) {
    || (if exists text :: HasText(row.roles, text) && !Blank(text) then SomeRoleAllows(table, row.roles, key)
        else SomeRoleAllows(table, row.role, key))
    || exists i :: 0 <= i < |row.customRoles|
                   && !row.customRoles[i].isArchived && HasPermissionInSet(row.customRoles[i].permissions, key)
  }

  lemma {:induction false} ActiveListsGrant(roles: seq<CustomRole>, key: string)
    ensures AnyGrants(ActiveLists(roles), key) <==> AnyActiveGrant(roles, key)
  {
    if roles == [] {
    } else {
      var rest, lists := roles[1..], ActiveLists(roles);
      ActiveListsGrant(rest, key);
      assert forall i :: 0 <= i < |rest| ==> rest[i] == roles[i + 1];
      if !roles[0].isArchived {
        assert lists[0] == roles[0].permissions;
        assert forall i :: 0 <= i < |ActiveLists(rest)| ==> ActiveLists(rest)[i] == lists[i + 1];
      }
    }
  }

  lemma MemberRolesNormal(row: MemberRow)
    ensures ToRoleArray(AsInput(MemberRolesOf(row))) == MemberRolesOf(row)
  {
    if ToRoleArray(row.roles) != [] {
      ToRoleArrayIdempotent(row.roles);
    } else {
      ToRoleArrayIdempotent(row.role);
    }
  }

  lemma WrittenRoles(input: RoleInput)
    ensures ToRoleArray(input) != [] <==> exists text :: HasText(input, text) && !Blank(text)
  {
    if ToRoleArray(input) != [] {
      ToRoleArrayExactly(input, ToRoleArray(input)[0]);
      var text :| HasText(input, text) && ToRoleArray(input)[0] == Lower(Trim(text));
      BlankExactly(text);
    }
    if text :| HasText(input, text) && !Blank(text) {
      BlankExactly(text);
      assert Names(input, Lower(Trim(text)));
      ToRoleArrayExactly(input, Lower(Trim(text)));
    }
  }

  lemma MemberPermissionsByRole(table: RoleTable, row: MemberRow, key: string)
    ensures Grants(MemberPermissions(table, row), key) <==> AllowedByRole(table, row, key)
  {
    var input := if ToRoleArray(row.roles) != [] then row.roles else row.role;
    var system := AsInput(MemberRolesOf(row));
    WrittenRoles(row.roles);
    MemberRolesNormal(row);
    assert PermissionsForRoles(table, system) == PermissionsForRoles(table, input);
    RolesGrantExactly(table, input, key);
    ActiveListsGrant(row.customRoles, key);
    assert AnyActiveGrant(row.customRoles, key) <==>
           exists i :: 0 <= i < |row.customRoles|
                       && !row.customRoles[i].isArchived && HasPermissionInSet(row.customRoles[i].permissions, key);
    MemberGrantsExactly(table, system, ActiveLists(row.customRoles), key);
  }

  /** Who has a context, and which: owners with a profile for their own account,
      platform admins without one for none, members for their supplier's, with exactly
      what their roles allow. */
  lemma TeamContextExactly(table: RoleTable, user: User, db: Records, key: string)
    ensures var c, admin := TeamContext(table, user, db), "admin" in user.roles;
            && (c.Some? <==> admin || db.hasProfile || (user.email != "" && db.member.Some?))
            && (c.Some? ==>
                  && (c.value.isOwner <==> admin || db.hasProfile)
                  && (c.value.isPlatformAdmin <==> admin && !db.hasProfile)
                  && c.value.supplierId == (if db.hasProfile then Some(user.id)
                                            else if admin then None
                                            else Some(db.member.value.supplierId))
                  && (Grants(c.value.permissions, key) <==>
                        admin || db.hasProfile || AllowedByRole(table, db.member.value, key)))
  {
    if "admin" !in user.roles && !db.hasProfile && user.email != "" && db.member.Some? {
      MemberPermissionsByRole(table, db.member.value, key);
    }
  }

  /** A member may use the chat, on either side, exactly when one of their system
      roles or active custom roles says so. */
  lemma MemberAdmittedExactly(table: RoleTable, user: User, db: Records)
    requires "admin" !in user.roles && !db.hasProfile && user.email != "" && db.member.Some?
    requires db.member.value.supplierId != user.id
    ensures var lookup := Found(TeamContext(table, user, db));
            && (HttpAdmits(user.id, lookup) <==> AllowedByRole(table, db.member.value, "chat.view"))
            && (SocketAdmits(AfterLookup(user.id, lookup)) <==> AllowedByRole(table, db.member.value, "chat.view"))
  {
    MemberPermissionsByRole(table, db.member.value, "chat.view");
    GatesAgree(table, user, db);
  }

  /** Everyone else is admitted on both sides, and anyone whose lookup fails. */
  lemma OthersAdmitted(table: RoleTable, user: User, db: Records)
    requires "admin" in user.roles || db.hasProfile || user.email == "" || db.member.None?
    ensures var lookup := Found(TeamContext(table, user, db));
            HttpAdmits(user.id, lookup) && SocketAdmits(AfterLookup(user.id, lookup))
    ensures HttpAdmits(user.id, Failed) && SocketAdmits(AfterLookup(user.id, Failed))
  {
  }

  /** A member without the admin role acts for their supplier on both sides, everyone
      else without it for themselves, also when the lookup fails. */
  lemma ActsForSupplier(table: RoleTable, user: User, db: Records, shared: Option<Id>)
    requires "admin" !in user.roles
    ensures var lookup := Found(TeamContext(table, user, db));
            var account := if !db.hasProfile && user.email != "" && db.member.Some? then db.member.value.supplierId
                           else user.id;
            && HttpIdentity(user.id, lookup) == account
            && SocketIdentity(user, AfterLookup(user.id, lookup), shared) == account
    ensures HttpIdentity(user.id, Failed) == SocketIdentity(user, AfterLookup(user.id, Failed), shared) == user.id
  {
  }
}
