/** The permission check on lists (config/permissions.js), how it relates to the
    check on roles (config/teamPermissions.js), and what a member with system and
    custom roles may do. */
module PermissionChecks {
  import opened Texts
  import opened TeamPermissions

  /** A wildcard entry of the key's family: `tours.*` for `tours.view`. */
  predicate Covers(p: string, key: string) {
    EndsWithStar(p) && Prefix(key) + "." <= p
  }

  /** What a set of permissions allows. */
  predicate Grants(permissions: set<string>, key: string) {
    "*" in permissions || key in permissions || exists p :: p in permissions && Covers(p, key)
  }

  predicate HasPermissionInSet(permissions: seq<string>, key: string)
    ensures HasPermissionInSet(permissions, key) <==> Grants(Elements(permissions), key)
  {
    || "*" in permissions
    || key in permissions
    || exists i :: 0 <= i < |permissions| && Covers(permissions[i], key)
  }

  lemma GrantsUnion(a: set<string>, b: set<string>, key: string)
    ensures Grants(a + b, key) <==> Grants(a, key) || Grants(b, key)
  {
  }

  // ----- The two checks

  /** The plain condition: the list has the wildcard, or no star entry at all. */
  predicate NoFamilyStars(permissions: seq<string>) {
    "*" in permissions || forall p :: p in permissions ==> !EndsWithStar(p)
  }

  /** No entry has the empty family. */
  predicate NoLeadingDot(permissions: seq<string>) {
    forall p :: p in permissions ==> !("." <= p)
  }

  predicate StarFor(permissions: seq<string>, family: string) {
    exists q :: q in permissions && EndsWithStar(q) && family + "." <= q
  }

  /** The condition for all lists: a star entry p is read loosely as one for every
      beginning of its own family, down to the empty one, so each of these needs a
      star entry of its own. */
  predicate Dotted(permissions: seq<string>) {
    "*" in permissions ||
    forall p, n :: p in permissions && EndsWithStar(p) && 0 <= n <= |Prefix(p)| ==> StarFor(permissions, p[..n])
  }

  /** Where no entry starts with a dot the two conditions are one: a single star entry
      already makes a difference. */
  lemma DottedExactly(permissions: seq<string>)
    ensures NoFamilyStars(permissions) ==> Dotted(permissions)
    ensures NoLeadingDot(permissions) ==> (Dotted(permissions) <==> NoFamilyStars(permissions))
  {
    if !NoFamilyStars(permissions) {
      var p :| p in permissions && EndsWithStar(p);
      assert p[..0] == "" && "" + "." == ".";
      assert Dotted(permissions) ==> StarFor(permissions, p[..0]);
      assert StarFor(permissions, "") ==> !NoLeadingDot(permissions);
    }
  }

  /** A family star with an entry of its family beside it does not meet it. */
  lemma FamilyStarDiffers()
    ensures !Dotted(["tours.*", "tours.view"])
  {
    var ps := ["tours.*", "tours.view"];
    assert ps[0] in ps && EndsWithStar(ps[0]);
    assert |ps[0]| == 7 && |ps[1]| == 10 && ps[0][0] != '.' && ps[1][0] != '.';
    assert NoLeadingDot(ps);
    DottedExactly(ps);
  }

  /** A key of a given family that a list does not mention. */
  function Fresh(permissions: seq<string>): (z: string)
    ensures forall p :: p in permissions ==> |z| >= |p|
  {
    if permissions == [] then ""
    else
      var rest := Fresh(permissions[1..]);
      if |rest| >= |permissions[0]| then rest else permissions[0]
  }

  /** A dotless beginning of a text is a beginning of its family. */
  lemma {:induction false} FamilyBeginning(x: string, p: string)
    requires '.' !in x && x <= p
    ensures |x| <= |Prefix(p)| && x == p[..|x|]
  {
    if x == "" {
    } else {
      assert p[0] == x[0];
      FamilyBeginning(x[1..], p[1..]);
    }
  }

  lemma RoleGrantsIsGrants(permissions: seq<string>, key: string)
    requires Dotted(permissions)
    ensures RoleGrants(permissions, key) <==> Grants(Elements(permissions), key)
  {
    if "*" !in permissions {
      if i :| 0 <= i < |permissions| && LooselyCovers(permissions[i], key) {
        FamilyBeginning(Prefix(key), permissions[i]);
        assert StarFor(permissions, Prefix(key));
        var q :| q in permissions && EndsWithStar(q) && Prefix(key) + "." <= q;
        assert q in Elements(permissions) && Covers(q, key);
      }
      if p :| p in Elements(permissions) && Covers(p, key) {
        var i :| 0 <= i < |permissions| && permissions[i] == p;
        assert Prefix(key) <= Prefix(key) + "." <= p;
        assert LooselyCovers(permissions[i], key);
      }
    }
  }

  /** A list that is not dotted tells the two checks apart. */
  lemma UndottedDiffers(permissions: seq<string>) returns (key: string)
    requires !Dotted(permissions)
    ensures RoleGrants(permissions, key) && !Grants(Elements(permissions), key)
  {
    var p, n :| p in permissions && EndsWithStar(p) && 0 <= n <= |Prefix(p)| && !StarFor(permissions, p[..n]);
    var x := p[..n];
    assert x == Prefix(p)[..n];
    key := x + "." + Fresh(permissions);
    assert x + "." <= key;
    PrefixUnique(x, key);
    assert key !in permissions;
    var i :| 0 <= i < |permissions| && permissions[i] == p;
    assert LooselyCovers(permissions[i], key);
  }

  /** The list of every role that can be held is dotted. */
  ghost predicate DottedTable(table: RoleTable) {
    forall role :: role in table && IsRoleName(role) ==> Dotted(table[role])
  }

  ghost predicate ChecksCoincide(table: RoleTable) {
    forall input: RoleInput, key ::
      TeamGrants(table, ToRoleArray(input), key) <==> Grants(PermissionsForRoles(table, input), key)
  }

  predicate NoLeadingDots(table: RoleTable) {
    forall role :: role in table ==> NoLeadingDot(table[role])
  }

  predicate NoFamilyStarsAtAll(table: RoleTable) {
    forall role :: role in table && IsRoleName(role) ==> NoFamilyStars(table[role])
  }

  lemma UnionOne(table: RoleTable, role: string)
    ensures Union(table, [role]) == Elements(Listed(table, role))
  {
  }

  lemma OneRole(table: RoleTable, role: string, key: string)
    requires role in table && IsRoleName(role) && "*" !in table[role]
    ensures TeamGrants(table, ToRoleArray(AsInput([role])), key) <==> RoleGrants(table[role], key)
    ensures PermissionsForRoles(table, AsInput([role])) == Elements(table[role])
  {
    RoleNamesFixed([role]);
    assert [role][0] == role;
    UnionOne(table, role);
  }

  lemma ListedInUnion(table: RoleTable, roles: seq<string>, role: string)
    requires role in roles
    ensures Elements(Listed(table, role)) <= Union(table, roles)
  {
  }

  lemma UnionGrants(table: RoleTable, roles: seq<string>, key: string)
    requires DottedTable(table) && forall i :: 0 <= i < |roles| ==> IsRoleName(roles[i])
    ensures var all := Union(table, roles);
            TeamGrants(table, roles, key) <==> Grants(if "*" in all then {"*"} else all, key)
  {
    var all := Union(table, roles);
    if i :| 0 <= i < |roles| && roles[i] in table && RoleGrants(table[roles[i]], key) {
      RoleGrantsIsGrants(table[roles[i]], key);
      ListedInUnion(table, roles, roles[i]);
    }
    if Grants(all, key) {
      var p :| p in all && (p == "*" || p == key || Covers(p, key));
      var role :| role in roles && p in Listed(table, role);
      var i :| 0 <= i < |roles| && roles[i] == role;
      assert p in Elements(table[role]);
      RoleGrantsIsGrants(table[role], key);
    }
  }

  /** The check on roles and the check on their union agree for every role list and
      every key exactly when the list of every role is dotted. Where no entry starts
      with a dot, that is when every role has the wildcard or no star entry. */
  lemma ChecksCoincideExactly(table: RoleTable)
    ensures ChecksCoincide(table) <==> DottedTable(table)
    ensures NoLeadingDots(table) ==> (ChecksCoincide(table) <==> NoFamilyStarsAtAll(table))
  {
    forall role | role in table
      ensures NoLeadingDot(table[role]) ==> (Dotted(table[role]) <==> NoFamilyStars(table[role]))
    {
      DottedExactly(table[role]);
    }
    if DottedTable(table) {
      forall input: RoleInput, key
        ensures TeamGrants(table, ToRoleArray(input), key) <==> Grants(PermissionsForRoles(table, input), key)
      {
        UnionGrants(table, ToRoleArray(input), key);
      }
    } else {
      var role :| role in table && IsRoleName(role) && !Dotted(table[role]);
      var key := UndottedDiffers(table[role]);
      OneRole(table, role, key);
    }
  }

  /** A list whose only star entry is the wildcard meets the condition. */
  lemma OnlyStarIsDotted(permissions: seq<string>)
    requires forall p :: p in permissions && EndsWithStar(p) ==> p == "*"
    ensures Dotted(permissions)
  {
  }

  /** The role check accepts a neighbouring family, `tours.*` for a key of family
      `tour`; the list check does not. */
  lemma LooseFamily()
    ensures RoleGrants(["tours.*"], "tour.view") && !HasPermissionInSet(["tours.*"], "tour.view")
  {
    PrefixUnique("tour", "tour.view");
    assert LooselyCovers(["tours.*"][0], "tour.view");
    assert "tours.*"[4] == 's';
  }

  // ----- Members

  function Pooled(lists: seq<seq<string>>): set<string> {
    set list, p | list in lists && p in list :: p
  }

  /** System roles and custom roles together. */
  function PermissionsForMember(table: RoleTable, system: RoleInput, customs: seq<seq<string>>): set<string> {
    var fromRoles := PermissionsForRoles(table, AsInput(ToRoleArray(system)));
    if "*" in fromRoles then {"*"} else fromRoles + Pooled(customs)
  }

  method AddAll(union: seq<string>, list: seq<string>) returns (r: seq<string>)
    requires NoDuplicates(union)
    ensures NoDuplicates(r) && Elements(r) == Elements(union) + Elements(list)
  {
    r := union;
    for j := 0 to |list|
      invariant NoDuplicates(r)
      invariant Elements(r) == Elements(union) + Elements(list[..j])
    {
      ElementsUpTo(list, j);
      ElementsSnoc(r, list[j]);
      assert list[j] in r <==> list[j] in Elements(r);
      if list[j] !in r {
        r := r + [list[j]];
      }
    }
    assert list[..|list|] == list;
  }

  lemma PooledUpTo(lists: seq<seq<string>>, n: nat)
    requires n < |lists|
    ensures Pooled(lists[..n + 1]) == Pooled(lists[..n]) + Elements(lists[n])
  {
  }

  method CollectMemberPermissions(table: RoleTable, system: RoleInput, customs: seq<seq<string>>)
      returns (permissions: seq<string>)
    ensures Elements(permissions) == PermissionsForMember(table, system, customs)
    ensures NoDuplicates(permissions)
  {
    var union := CollectPermissions(table, AsInput(ToRoleArray(system)));
    ghost var fromRoles := Elements(union);
    assert "*" in union <==> "*" in fromRoles;
    if "*" in union {
      return ["*"];
    }
    for i := 0 to |customs|
      invariant NoDuplicates(union)
      invariant Elements(union) == fromRoles + Pooled(customs[..i])
    {
      union := AddAll(union, customs[i]);
      PooledUpTo(customs, i);
    }
    assert customs[..|customs|] == customs;
    return union;
  }

  lemma SameNames(table: RoleTable, system: RoleInput)
    ensures PermissionsForRoles(table, AsInput(ToRoleArray(system))) == PermissionsForRoles(table, system)
  {
    ToRoleArrayIdempotent(system);
  }

  /** What is on a member's list: the wildcard alone when a written system role lists it,
      else exactly what some written system role or some custom role lists. */
  lemma PermissionsForMemberExactly(table: RoleTable, system: RoleInput, customs: seq<seq<string>>, p: string)
    ensures p in PermissionsForMember(table, system, customs) <==>
            if exists role :: Names(system, role) && role in table && "*" in table[role] then p == "*"
            else (exists role :: Names(system, role) && role in table && p in table[role])
                 || exists list :: list in customs && p in list
  {
    SameNames(table, system);
    PermissionsForRolesExactly(table, system, "*");
    PermissionsForRolesExactly(table, system, p);
  }

  predicate AnyGrants(lists: seq<seq<string>>, key: string) {
    exists i :: 0 <= i < |lists| && HasPermissionInSet(lists[i], key)
  }

  lemma PooledGrants(lists: seq<seq<string>>, key: string)
    ensures Grants(Pooled(lists), key) <==> AnyGrants(lists, key)
  {
  }

  /** The union of the written roles allows exactly what the list of one of them does. */
  lemma RolesGrantExactly(table: RoleTable, input: RoleInput, key: string)
    ensures Grants(PermissionsForRoles(table, input), key)
            <==> exists role :: Names(input, role) && role in table && HasPermissionInSet(table[role], key)
  {
    if role :| Names(input, role) && role in table && HasPermissionInSet(table[role], key) {
      var p :| p in Elements(table[role]) && (p == "*" || p == key || Covers(p, key));
      UnionExactly(table, input, p);
    }
    if Grants(PermissionsForRoles(table, input), key) {
      var p :| p in PermissionsForRoles(table, input) && (p == "*" || p == key || Covers(p, key));
      UnionExactly(table, input, p);
      var role :| Names(input, role) && role in table && p in table[role];
      assert p in Elements(table[role]);
    }
  }

  /** A member may do exactly what one of the sources allows. */
  lemma MemberGrantsExactly(table: RoleTable, system: RoleInput, customs: seq<seq<string>>, key: string)
    ensures Grants(PermissionsForMember(table, system, customs), key)
            <==> || Grants(PermissionsForRoles(table, system), key)
                 || AnyGrants(customs, key)
  {
    ToRoleArrayIdempotent(system);
    var fromRoles := PermissionsForRoles(table, system);
    PooledGrants(customs, key);
    GrantsUnion(fromRoles, Pooled(customs), key);
  }

  /** With dotted role tables the member check is the role check or a custom role. */
  lemma MemberIsRolesOrCustoms(table: RoleTable, system: RoleInput, customs: seq<seq<string>>, key: string)
    requires DottedTable(table)
    ensures Grants(PermissionsForMember(table, system, customs), key)
            <==> || TeamGrants(table, ToRoleArray(system), key)
                 || AnyGrants(customs, key)
  {
    MemberGrantsExactly(table, system, customs, key);
    UnionGrants(table, ToRoleArray(system), key);
  }
}
