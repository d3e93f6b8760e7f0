/** System roles and what they grant (config/teamPermissions.js). The role table
    is a parameter: nothing here depends on its entries. */
module TeamPermissions {
  import opened Texts

  /** Role name to the permissions it lists. */
  type RoleTable = map<string, seq<string>>

  /** Anything role-shaped: nothing, one name, or a JSON array. */
  datatype RoleInput = Nothing | One(name: string) | Many(items: seq<Item>)

  /** A name as the role code compares it: trimmed, lower case, not empty. */
  predicate IsRoleName(name: string) {
    name != "" && Trimmed(name) && Lower(name) == name
  }

  function RoleNames(items: seq<Item>): (names: seq<string>)
    ensures forall i :: 0 <= i < |names| ==> IsRoleName(names[i])
  {
    if items == [] then []
    else
      var rest := RoleNames(items[1..]);
      if items[0].NotText? then rest
      else
        var name := Lower(Trim(items[0].s));
        LowerTwice(Trim(items[0].s));
        if name == "" then rest else [name] + rest
  }

  function ToRoleArray(input: RoleInput): seq<string> {
    match input
    case Nothing => []
    case One(name) => RoleNames([Text(name)])
    case Many(items) => RoleNames(items)
  }

  function AsInput(names: seq<string>): RoleInput {
    Many(seq(|names|, i requires 0 <= i < |names| => Text(names[i])))
  }

  lemma {:induction false} RoleNamesFixed(names: seq<string>)
    requires forall i :: 0 <= i < |names| ==> IsRoleName(names[i])
    ensures RoleNames(AsInput(names).items) == names
  {
    if names == [] {
    } else {
      assert AsInput(names).items[1..] == AsInput(names[1..]).items;
      RoleNamesFixed(names[1..]);
    }
  }

  /** Normalising twice is normalising once; callers rely on it when they pass
      normalised roles to functions that normalise again. */
  lemma ToRoleArrayIdempotent(input: RoleInput)
    ensures ToRoleArray(AsInput(ToRoleArray(input))) == ToRoleArray(input)
  {
    RoleNamesFixed(ToRoleArray(input));
  }

  /** A text of the input: the single one, or one of the array. */
  predicate HasText(input: RoleInput, text: string) {
    match input
    case Nothing => false
    case One(name) => text == name
    case Many(items) => Text(text) in items
  }

  /** The role is written in the input, in whatever case and with space around it. */
  ghost predicate Names(input: RoleInput, role: string) {
    role != "" && exists text :: HasText(input, text) && role == Lower(Trim(text))
  }

  lemma {:induction false} RoleNamesExactly(items: seq<Item>, role: string)
    ensures role in RoleNames(items) <==> Names(Many(items), role)
  {
    if items == [] {
    } else {
      var rest := items[1..];
      RoleNamesExactly(rest, role);
      assert forall text :: HasText(Many(items), text) <==> items[0] == Text(text) || HasText(Many(rest), text);
      assert items[0].Text? ==> HasText(Many(items), items[0].s);
    }
  }

  /** Exactly the written roles come out, whatever form the input has. */
  lemma ToRoleArrayExactly(input: RoleInput, role: string)
    ensures role in ToRoleArray(input) <==> Names(input, role)
  {
    match input {
      case Nothing =>
      case One(name) =>
        RoleNamesExactly([Text(name)], role);
        assert forall text :: HasText(input, text) <==> HasText(Many([Text(name)]), text);
      case Many(items) =>
        RoleNamesExactly(items, role);
    }
  }

  // ----- Union of the roles

  /** What one role lists; an unknown role lists nothing. */
  function Listed(table: RoleTable, role: string): seq<string> {
    if role in table then table[role] else []
  }

  /** Everything the known roles of a list grant. */
  function Union(table: RoleTable, roles: seq<string>): set<string> {
    set role, p | role in roles && p in Listed(table, role) :: p
  }

  lemma UnionUpTo(table: RoleTable, roles: seq<string>, n: nat)
    requires n < |roles|
    ensures Union(table, roles[..n + 1]) == Union(table, roles[..n]) + Elements(Listed(table, roles[n]))
  {
  }

  function PermissionsForRoles(table: RoleTable, input: RoleInput): set<string> {
    var all := Union(table, ToRoleArray(input));
    if "*" in all then {"*"} else all
  }

  lemma UnionExactly(table: RoleTable, input: RoleInput, p: string)
    ensures p in Union(table, ToRoleArray(input)) <==>
            exists role :: Names(input, role) && role in table && p in table[role]
  {
    if p in Union(table, ToRoleArray(input)) {
      var role :| role in ToRoleArray(input) && p in Listed(table, role);
      ToRoleArrayExactly(input, role);
    }
    if role :| Names(input, role) && role in table && p in table[role] {
      ToRoleArrayExactly(input, role);
      assert p in Listed(table, role);
    }
  }

  /** What the written roles grant: the wildcard alone when one of them lists it, else
      everything that one of them lists. */
  lemma PermissionsForRolesExactly(table: RoleTable, input: RoleInput, p: string)
    ensures p in PermissionsForRoles(table, input) <==>
            if exists role :: Names(input, role) && role in table && "*" in table[role] then p == "*"
            else exists role :: Names(input, role) && role in table && p in table[role]
  {
    UnionExactly(table, input, "*");
    UnionExactly(table, input, p);
  }

  /** What the loops hold after reading the permissions `all`. */
  predicate Holds(collected: seq<string>, wildcard: bool, all: set<string>) {
    NoDuplicates(collected) && Elements(collected) == all - {"*"} && (wildcard <==> "*" in all)
  }

  lemma HoldsMore(collected: seq<string>, wildcard: bool, all: set<string>, p: string)
    requires Holds(collected, wildcard, all)
    ensures p == "*" ==> Holds(collected, true, all + {p})
    ensures p in collected ==> Holds(collected, wildcard, all + {p})
    ensures p != "*" && p !in collected ==> Holds(collected + [p], wildcard, all + {p})
  {
    ElementsSnoc(collected, p);
    if p in collected {
      assert p in Elements(collected);
      assert all + {p} == all;
    }
  }

  /** The loops keep the permissions in insertion order and a wildcard flag apart. */
  method CollectPermissions(table: RoleTable, input: RoleInput) returns (permissions: seq<string>)
    ensures Elements(permissions) == PermissionsForRoles(table, input)
    ensures NoDuplicates(permissions)
  {
    var list := ToRoleArray(input);
    var collected: seq<string> := [];
    var wildcard := false;
    ghost var all: set<string> := {};
    for i := 0 to |list|
      invariant all == Union(table, list[..i])
      invariant Holds(collected, wildcard, all)
    {
      if list[i] in table {
        var config := table[list[i]];
        ghost var before := all;
        for j := 0 to |config|
          invariant all == before + Elements(config[..j])
          invariant Holds(collected, wildcard, all)
        {
          var permission := config[j];
          HoldsMore(collected, wildcard, all, permission);
          ElementsUpTo(config, j);
          if permission == "*" {
            wildcard := true;
          } else if permission !in collected {
            collected := collected + [permission];
          }
          all := all + {permission};
        }
        assert config[..|config|] == config;
      }
      UnionUpTo(table, list, i);
    }
    assert list[..|list|] == list;
    permissions := if wildcard then ["*"] else collected;
  }

  // ----- The permission check on roles

  /** The role check reads a wildcard entry without the dot after the family. */
  predicate LooselyCovers(p: string, key: string) {
    EndsWithStar(p) && Prefix(key) <= p
  }

  predicate RoleGrants(permissions: seq<string>, key: string) {
    || "*" in permissions
    || key in permissions
    || exists i :: 0 <= i < |permissions| && LooselyCovers(permissions[i], key)
  }

  predicate TeamGrants(table: RoleTable, roles: seq<string>, key: string) {
    exists i :: 0 <= i < |roles| && roles[i] in table && RoleGrants(table[roles[i]], key)
  }

  /** The wildcard, the permission itself, or an entry that ends in a star and begins
      with everything before the permission's first dot. */
  predicate ListAllows(list: seq<string>, permission: string) {
    || "*" in list
    || permission in list
    || exists p :: p in list && p != "" && p[|p| - 1] == '*' && Prefix(permission) <= p
  }

  lemma TeamGrantsExactly(table: RoleTable, input: RoleInput, permission: string)
    ensures TeamGrants(table, ToRoleArray(input), permission)
            <==> exists role :: Names(input, role) && role in table && ListAllows(table[role], permission)
  {
    var list := ToRoleArray(input);
    if i :| 0 <= i < |list| && list[i] in table && RoleGrants(table[list[i]], permission) {
      ToRoleArrayExactly(input, list[i]);
      assert ListAllows(table[list[i]], permission);
    }
    if role :| Names(input, role) && role in table && ListAllows(table[role], permission) {
      ToRoleArrayExactly(input, role);
      var i :| 0 <= i < |list| && list[i] == role;
      assert RoleGrants(table[list[i]], permission) by {
        if p :| p in table[role] && p != "" && p[|p| - 1] == '*' && Prefix(permission) <= p {
          var j :| 0 <= j < |table[role]| && table[role][j] == p;
          assert LooselyCovers(table[role][j], permission);
        }
      }
    }
  }

  method HasTeamPermission(table: RoleTable, input: RoleInput, permission: string) returns (granted: bool)
    ensures granted <==> TeamGrants(table, ToRoleArray(input), permission)
    ensures granted <==> exists role :: Names(input, role) && role in table && ListAllows(table[role], permission)
  {
    TeamGrantsExactly(table, input, permission);
    var list := ToRoleArray(input);
    for i := 0 to |list|
      invariant forall k :: 0 <= k < i ==> !(list[k] in table && RoleGrants(table[list[k]], permission))
    {
      if list[i] in table {
        var permissions := table[list[i]];
        if "*" in permissions { return true; }
        if permission in permissions { return true; }
        var prefix := Prefix(permission);
        if exists j :: 0 <= j < |permissions| && EndsWithStar(permissions[j]) && prefix <= permissions[j] {
          assert RoleGrants(permissions, permission) by {
            var j :| 0 <= j < |permissions| && EndsWithStar(permissions[j]) && prefix <= permissions[j];
            assert LooselyCovers(permissions[j], permission);
          }
          return true;
        }
      }
    }
    return false;
  }
}
