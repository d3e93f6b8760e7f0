/** The privilege-escalation guard (config/permissions.js `canGrantPermissions`,
    applied by src/core/domain/teamController.js to every assignment), and what
    it keeps over whole histories of a team. */
module DelegatedGrants {
  import opened Wrappers
  import opened Texts
  import opened TeamPermissions
  import opened Permissions
  import opened PermissionChecks

  datatype Verdict = Granted | OwnerOnlyKey(key: string) | NotHeld(key: string)

  predicate MayGrantKey(cat: Catalogue, actor: set<string>, key: string) {
    !OwnerOnly(cat, key) && Grants(actor, key)
  }

  predicate MayGrant(cat: Catalogue, actor: set<string>, requested: set<string>) {
    forall key :: key in requested ==> MayGrantKey(cat, actor, key)
  }

  /** Refuses on the first key that may not be granted, and says why. */
  method CanGrantPermissions(cat: Catalogue, actor: seq<string>, requested: seq<string>, isOwner: bool)
      returns (r: Verdict)
    ensures r == Granted <==> isOwner || MayGrant(cat, Elements(actor), Elements(requested))
    ensures r == Granted <==>
              isOwner || forall key :: key in requested ==>
                && key !in cat.ownerOnlyKeys && (key in cat.entries ==> !cat.entries[key].ownerOnly)
                && HasPermissionInSet(actor, key)
    ensures r != Granted ==>
              exists i :: 0 <= i < |requested| && requested[i] == r.key
                && !MayGrantKey(cat, Elements(actor), r.key)
                && MayGrant(cat, Elements(actor), Elements(requested[..i]))
    ensures r.OwnerOnlyKey? ==> OwnerOnly(cat, r.key)
    ensures r.NotHeld? ==> !OwnerOnly(cat, r.key) && !Grants(Elements(actor), r.key)
  {
    if isOwner {
      return Granted;
    }
    for i := 0 to |requested|
      invariant MayGrant(cat, Elements(actor), Elements(requested[..i]))
    {
      var key := requested[i];
      assert key in Elements(requested);
      if OwnerOnly(cat, key) {
        return OwnerOnlyKey(key);
      }
      if !HasPermissionInSet(actor, key) {
        return NotHeld(key);
      }
      ElementsUpTo(requested, i);
    }
    assert requested[..|requested|] == requested;
    assert forall key :: key in requested ==> key in Elements(requested);
    return Granted;
  }

  // ----- One grant

  lemma {:induction false} DotlessPrefix(z: string)
    requires '.' !in z
    ensures Prefix(z) == z
  {
    if z == "" {
    } else {
      DotlessPrefix(z[1..]);
    }
  }

  /** A dotless text longer than every member of a set. */
  lemma {:induction false} LongText(s: set<string>) returns (z: string)
    ensures '.' !in z && forall p :: p in s ==> |z| > |p|
    decreases |s|
  {
    if s == {} {
      z := "";
    } else {
      var p :| p in s;
      var y := LongText(s - {p});
      z := seq(|y| + |p| + 1, _ => 'a');
    }
  }

  /** Holding every granted key is holding everything the grant allows, except
      that the wildcard itself has to be held as such. */
  lemma HoldingKeysExactly(actor: set<string>, granted: set<string>)
    requires forall p :: p in granted ==> Grants(actor, p)
    ensures (forall key :: Grants(granted, key) ==> Grants(actor, key)) <==> ("*" in granted ==> "*" in actor)
  {
    if "*" in granted && "*" !in actor {
      var z := LongText(actor);
      DotlessPrefix(z);
      assert Grants(granted, z) && !Grants(actor, z);
    } else {
      forall key | Grants(granted, key)
        ensures Grants(actor, key)
      {
        if "*" !in granted && key !in granted {
          var p :| p in granted && Covers(p, key);
          PrefixUnique(Prefix(key), p);
          assert Prefix(p) == Prefix(key);
        }
      }
    }
  }

  /** No entry whose family is the wildcard: none starts with "*.". */
  predicate Ordinary(permissions: set<string>) {
    forall p :: p in permissions ==> !("*." <= p)
  }

  lemma PrefixOfStar()
    ensures Prefix("*") == "*"
  {
  }

  lemma GrantAddsNothing(cat: Catalogue, actor: set<string>, granted: set<string>)
    requires Ordinary(actor) && MayGrant(cat, actor, granted)
    ensures forall key :: Grants(granted, key) ==> Grants(actor, key)
    ensures "*" in granted ==> "*" in actor
    ensures forall key :: key in granted ==> !OwnerOnly(cat, key)
  {
    forall p | p in granted
      ensures Grants(actor, p)
    {
      assert MayGrantKey(cat, actor, p);
    }
    if "*" in granted {
      PrefixOfStar();
      assert MayGrantKey(cat, actor, "*");
    }
    HoldingKeysExactly(actor, granted);
  }

  // ----- Checking the raw list instead of the normalised one

  /** Whatever entry the actor may use, they may use what it needs. */
  ghost predicate HeldClosed(cat: Catalogue, actor: set<string>) {
    forall k, r :: k in cat.entries && MayGrantKey(cat, actor, k) && r in Needs(cat, k) && Useful(cat, r) ==> Grants(actor, r)
  }

  /** Every list that passes the guard as typed also passes it after expansion. */
  ghost predicate RawCheckSuffices(cat: Catalogue, actor: set<string>) {
    forall keys: set<string> :: Acceptable(cat, keys, false) && MayGrant(cat, actor, keys) ==>
      MayGrant(cat, actor, Closure(cat, keys))
  }

  /** Checking the list before expansion is enough exactly for actors whose
      permissions are closed under what they need. */
  lemma RawCheckSufficesExactly(cat: Catalogue, actor: set<string>)
    requires Tidy(cat) && OwnerOnlyApart(cat)
    ensures RawCheckSuffices(cat, actor) <==> HeldClosed(cat, actor)
  {
    if HeldClosed(cat, actor) {
      forall keys: set<string> | Acceptable(cat, keys, false) && MayGrant(cat, actor, keys)
        ensures MayGrant(cat, actor, Closure(cat, keys))
      {
        var held := set k | k in cat.entries && MayGrantKey(cat, actor, k);
        ClosureLeast(cat, keys, held);
      }
    }
    if RawCheckSuffices(cat, actor) {
      forall k, r | k in cat.entries && MayGrantKey(cat, actor, k) && r in Needs(cat, k) && Useful(cat, r)
        ensures Grants(actor, r)
      {
        assert Acceptable(cat, {k}, false) && MayGrant(cat, actor, {k});
        ClosureOk(cat, {k});
        assert k in Closure(cat, {k});
        assert MayGrantKey(cat, actor, r);
      }
    }
  }

  predicate NeitherViewNorWildcard(p: string) {
    p != "stays.view" && p != "*" && !EndsWithStar(p)
  }

  /** A role that lists a key of the stays workspace that needs its page, but not the
      page, is not closed. */
  lemma PageMissing(cat: Catalogue, permissions: seq<string>, key: string)
    requires key in permissions && forall p :: p in permissions ==> NeitherViewNorWildcard(p)
    requires key in cat.entries && "stays.view" in cat.entries
    requires !OwnerOnly(cat, key) && "stays.view" in Needs(cat, key)
    ensures !HeldClosed(cat, Elements(permissions))
  {
    assert key in Elements(permissions);
    assert MayGrantKey(cat, Elements(permissions), key);
    assert Useful(cat, "stays.view");
    assert !Grants(Elements(permissions), "stays.view");
  }

  /** The finance role as shipped. */
  const FINANCE := [
    "dashboard.view", "dashboard.revenue.view", "bookings.view", "bookings.revenue.view", "finance.view",
    "earnings.view", "payouts.view", "payouts.request", "payout-methods.view", "payout-methods.manage",
    "invoices.view", "charges.view", "disputes.view", "refund-claims.view", "analytics.view",
    "analytics.revenue.view", "settings.access", "settings.profile", "settings.notifications",
    "settings.tax", "notifications.view", "stays.analytics"]

  /** The support role as shipped. */
  const SUPPORT := [
    "dashboard.view", "bookings.view", "bookings.contact.view", "pickup.view", "pickup.contact.view",
    "chat.view", "chat.respond", "reviews.view", "reviews.respond", "settings.access",
    "settings.profile", "settings.notifications", "notifications.view", "cancellation.view", "stays.reviews"]

  lemma FinanceEntries()
    ensures forall p :: p in FINANCE ==> NeitherViewNorWildcard(p)
  {
    forall i | 0 <= i < |FINANCE|
      ensures NeitherViewNorWildcard(FINANCE[i])
    {
      if i < 8 {
      } else if i < 16 {
      }
    }
  }

  lemma SupportEntries()
    ensures forall p :: p in SUPPORT ==> NeitherViewNorWildcard(p)
  {
    forall i | 0 <= i < |SUPPORT|
      ensures NeitherViewNorWildcard(SUPPORT[i])
    {
      if i < 8 {
      }
    }
  }

  /** It is not closed: it may use `stays.analytics` but not `stays.view`. */
  lemma FinanceNotClosed(cat: Catalogue)
    requires "stays.analytics" in cat.entries && "stays.view" in cat.entries
    requires !OwnerOnly(cat, "stays.analytics") && "stays.view" in Needs(cat, "stays.analytics")
    ensures !HeldClosed(cat, Elements(FINANCE))
  {
    FinanceEntries();
    assert FINANCE[21] in FINANCE;
    PageMissing(cat, FINANCE, "stays.analytics");
  }

  /** Nor is support: it may use `stays.reviews` but not `stays.view`. */
  lemma SupportNotClosed(cat: Catalogue)
    requires "stays.reviews" in cat.entries && "stays.view" in cat.entries
    requires !OwnerOnly(cat, "stays.reviews") && "stays.view" in Needs(cat, "stays.reviews")
    ensures !HeldClosed(cat, Elements(SUPPORT))
  {
    SupportEntries();
    assert SUPPORT[14] in SUPPORT;
    PageMissing(cat, SUPPORT, "stays.reviews");
  }

  // ----- Histories of a team

  type Member = string
  type RoleId = string

  datatype Assignment = Assignment(system: RoleInput, customs: seq<RoleId>)

  /** Stored custom roles, what each non-owner member is assigned, and as a record
      everything the owner ever handed out. */
  datatype Team = Team(
    roles: map<RoleId, seq<string>>,
    members: map<Member, Assignment>,
    given: set<string>)

  /** The owner writes custom roles and assigns freely; a member may assign what
      the guard lets through. */
  datatype Step =
    | WriteRole(id: RoleId, items: seq<Item>, stored: seq<string>)
    | ArchiveRole(id: RoleId)
    | OwnerAssigns(to: Member, a: Assignment)
    | MemberAssigns(granter: Member, to: Member, a: Assignment)
    | Remove(who: Member)

  /** The fixed tables of the application. */
  datatype Tables = Tables(cat: Catalogue, system: RoleTable)

  /** What the tables have to meet: no listed permission is of the wildcard family. */
  ghost predicate OrdinaryTables(t: Tables) {
    && Tidy(t.cat)
    && (forall k :: k in t.cat.entries ==> !("*." <= k))
    && forall role :: role in t.system ==> Ordinary(Elements(t.system[role]))
  }

  function CustomLists(roles: map<RoleId, seq<string>>, ids: seq<RoleId>): seq<seq<string>> {
    if ids == [] then []
    else
      var rest := CustomLists(roles, ids[1..]);
      if ids[0] in roles then [roles[ids[0]]] + rest else rest
  }

  /** What a member with this assignment may do now. */
  function Effective(t: Tables, roles: map<RoleId, seq<string>>, a: Assignment): set<string> {
    PermissionsForMember(t.system, a.system, CustomLists(roles, a.customs))
  }

  /** What the guard is asked about: every role's permissions, side by side. */
  function Requested(t: Tables, roles: map<RoleId, seq<string>>, a: Assignment): set<string> {
    (set role, p | role in ToRoleArray(a.system) && p in PermissionsForRoles(t.system, AsInput([role])) :: p)
    + Pooled(CustomLists(roles, a.customs))
  }

  predicate Holds(members: map<Member, Assignment>, id: RoleId) {
    exists m :: m in members && id in members[m].customs
  }

  ghost predicate Enabled(t: Tables, team: Team, s: Step) {
    match s
    case WriteRole(id, items, stored) =>
      var keys := Elements(TrimmedKeys(items));
      Acceptable(t.cat, keys, false) && Elements(stored) == Closure(t.cat, keys)
    case MemberAssigns(granter, to, a) =>
      && granter in team.members
      && (forall i :: 0 <= i < |a.customs| ==> a.customs[i] in team.roles)
      && MayGrant(t.cat, Effective(t, team.roles, team.members[granter]), Requested(t, team.roles, a))
    case OwnerAssigns(_, a) =>
      forall i :: 0 <= i < |a.customs| ==> a.customs[i] in team.roles
    case _ => true
  }

  ghost function Apply(t: Tables, team: Team, s: Step): Team {
    match s
    case WriteRole(id, _, stored) =>
      team.(roles := team.roles[id := stored],
            given := if Holds(team.members, id) then team.given + Elements(stored) else team.given)
    case ArchiveRole(id) => team.(roles := team.roles - {id})
    case OwnerAssigns(to, a) =>
      team.(members := team.members[to := a], given := team.given + Requested(t, team.roles, a))
    case MemberAssigns(_, to, a) => team.(members := team.members[to := a])
    case Remove(who) => team.(members := team.members - {who})
  }

  ghost predicate Feasible(t: Tables, team: Team, steps: seq<Step>)
    decreases |steps|
  {
    steps == [] || (Enabled(t, team, steps[0]) && Feasible(t, Apply(t, team, steps[0]), steps[1..]))
  }

  ghost function Run(t: Tables, team: Team, steps: seq<Step>): Team
    decreases |steps|
  {
    if steps == [] then team else Run(t, Apply(t, team, steps[0]), steps[1..])
  }

  /** Nothing a member may do came from anyone but the owner; owner-only keys and
      the wildcard are on a member's list only where the owner put them. */
  ghost predicate Contained(cat: Catalogue, given: set<string>, held: set<string>) {
    && (forall key :: Grants(held, key) ==> Grants(given, key))
    && (forall key :: key in held && (key == "*" || OwnerOnly(cat, key)) ==> key in given)
  }

  ghost predicate Inv(t: Tables, team: Team) {
    && (forall id :: id in team.roles ==> Elements(team.roles[id]) <= t.cat.entries.Keys)
    && forall m :: m in team.members ==> Contained(t.cat, team.given, Effective(t, team.roles, team.members[m]))
  }

  /** Some assigned custom role that still exists lists the permission. */
  predicate FromCustom(roles: map<RoleId, seq<string>>, ids: seq<RoleId>, p: string) {
    exists id :: id in ids && id in roles && p in Elements(roles[id])
  }

  lemma PooledCons(list: seq<string>, rest: seq<seq<string>>)
    ensures Pooled([list] + rest) == Elements(list) + Pooled(rest)
  {
  }

  lemma {:induction false} PooledCustoms(roles: map<RoleId, seq<string>>, ids: seq<RoleId>, p: string)
    ensures p in Pooled(CustomLists(roles, ids)) <==> FromCustom(roles, ids, p)
  {
    if ids == [] {
    } else {
      var rest := CustomLists(roles, ids[1..]);
      PooledCustoms(roles, ids[1..], p);
      assert forall id :: id in ids <==> id == ids[0] || id in ids[1..];
      if ids[0] in roles {
        PooledCons(roles[ids[0]], rest);
      }
    }
  }

  /** The effective permissions are among the requested ones. */
  lemma EffectiveIsRequested(t: Tables, roles: map<RoleId, seq<string>>, a: Assignment)
    ensures Effective(t, roles, a) <= Requested(t, roles, a)
  {
    var names := ToRoleArray(a.system);
    ToRoleArrayIdempotent(a.system);
    forall p | p in PermissionsForRoles(t.system, AsInput(names))
      ensures p in Requested(t, roles, a)
    {
      var role :| role in names && p in Listed(t.system, role);
      var i :| 0 <= i < |names| && names[i] == role;
      RoleNamesFixed([role]);
      UnionOne(t.system, role);
      ListedInUnion(t.system, names, role);
      assert "*" in Elements(Listed(t.system, role)) ==> p == "*";
      assert p in PermissionsForRoles(t.system, AsInput([role]));
    }
  }

  lemma EffectiveOrdinary(t: Tables, roles: map<RoleId, seq<string>>, a: Assignment)
    requires OrdinaryTables(t) && forall id :: id in roles ==> Elements(roles[id]) <= t.cat.entries.Keys
    ensures Ordinary(Effective(t, roles, a))
  {
    forall p | p in Effective(t, roles, a)
      ensures !("*." <= p)
    {
      PooledCustoms(roles, a.customs, p);
      ToRoleArrayIdempotent(a.system);
      if p in Union(t.system, ToRoleArray(a.system)) {
        var role :| role in ToRoleArray(a.system) && p in Listed(t.system, role);
        assert p in Elements(t.system[role]);
      } else if p != "*" {
        var id :| id in a.customs && id in roles && p in Elements(roles[id]);
      }
    }
  }

  /** Fewer or other custom roles: what is effective grows by at most the difference. */
  lemma EffectiveAfterRoleChange(
      t: Tables, roles: map<RoleId, seq<string>>, roles': map<RoleId, seq<string>>, a: Assignment, extra: set<string>)
    requires forall id :: id in a.customs && id in roles' ==>
               if id in roles then Elements(roles'[id]) <= Elements(roles[id]) + extra else Elements(roles'[id]) <= extra
    ensures Effective(t, roles', a) <= Effective(t, roles, a) + extra
  {
    forall p | p in Pooled(CustomLists(roles', a.customs))
      ensures p in Pooled(CustomLists(roles, a.customs)) + extra
    {
      PooledCustoms(roles, a.customs, p);
      PooledCustoms(roles', a.customs, p);
      var id :| id in a.customs && id in roles' && p in Elements(roles'[id]);
    }
  }

  lemma GrantsSubset(a: set<string>, b: set<string>, key: string)
    requires a <= b && Grants(a, key)
    ensures Grants(b, key)
  {
  }

  lemma ContainedSubset(cat: Catalogue, given: set<string>, held: set<string>, more: set<string>, held': set<string>)
    requires Contained(cat, given, held) && held' <= held + more
    ensures Contained(cat, given + more, held')
  {
    forall key | Grants(held', key)
      ensures Grants(given + more, key)
    {
      GrantsSubset(held', held + more, key);
      GrantsUnion(held, more, key);
      GrantsUnion(given, more, key);
    }
  }

  /** Whoever passes the guard hands on nothing they could not do themselves. */
  lemma MemberAssignAddsNothing(t: Tables, team: Team, granter: Member, to: Member, a: Assignment)
    requires OrdinaryTables(t) && Inv(t, team) && Enabled(t, team, MemberAssigns(granter, to, a))
    ensures var mine, theirs := Effective(t, team.roles, team.members[granter]), Effective(t, team.roles, a);
            && (forall key :: Grants(theirs, key) ==> Grants(mine, key))
            && ("*" in theirs ==> "*" in mine)
            && (forall key :: key in theirs ==> !OwnerOnly(t.cat, key))
  {
    var mine, asked := Effective(t, team.roles, team.members[granter]), Requested(t, team.roles, a);
    EffectiveOrdinary(t, team.roles, team.members[granter]);
    EffectiveIsRequested(t, team.roles, a);
    GrantAddsNothing(t.cat, mine, asked);
    forall key | Grants(Effective(t, team.roles, a), key)
      ensures Grants(mine, key)
    {
      GrantsSubset(Effective(t, team.roles, a), asked, key);
    }
  }

  lemma ContainedWider(cat: Catalogue, given: set<string>, given': set<string>, held: set<string>)
    requires Contained(cat, given, held) && given <= given'
    ensures Contained(cat, given', held)
  {
  }

  lemma ContainedAfterRoleChange(t: Tables, team: Team, team': Team, a: Assignment, extra: set<string>)
    requires Contained(t.cat, team.given, Effective(t, team.roles, a))
    requires team.given + extra <= team'.given
    requires forall id :: id in a.customs && id in team'.roles ==>
               if id in team.roles then Elements(team'.roles[id]) <= Elements(team.roles[id]) + extra
               else Elements(team'.roles[id]) <= extra
    ensures Contained(t.cat, team'.given, Effective(t, team'.roles, a))
  {
    EffectiveAfterRoleChange(t, team.roles, team'.roles, a, extra);
    ContainedSubset(t.cat, team.given, Effective(t, team.roles, a), extra, Effective(t, team'.roles, a));
    ContainedWider(t.cat, team.given + extra, team'.given, Effective(t, team'.roles, a));
  }

  lemma StepKeepsInv(t: Tables, team: Team, s: Step)
    requires OrdinaryTables(t) && Inv(t, team) && Enabled(t, team, s)
    ensures Inv(t, Apply(t, team, s))
  {
    var team' := Apply(t, team, s);
    if s.WriteRole? {
      ClosureStaysInCatalogue(t.cat, Elements(TrimmedKeys(s.items)));
    }
    forall m | m in team'.members
      ensures Contained(t.cat, team'.given, Effective(t, team'.roles, team'.members[m]))
    {
      var a := team'.members[m];
      if s.OwnerAssigns? && m == s.to {
        EffectiveIsRequested(t, team.roles, a);
        assert Contained(t.cat, {}, {});
        ContainedSubset(t.cat, team.given, {}, Requested(t, team.roles, a), Effective(t, team.roles, a));
      } else if s.MemberAssigns? && m == s.to {
        assert Contained(t.cat, team.given, Effective(t, team.roles, team.members[s.granter]));
        MemberAssignAddsNothing(t, team, s.granter, s.to, a);
      } else {
        assert m in team.members && team.members[m] == a;
        var extra := if s.WriteRole? && s.id in a.customs then Elements(s.stored) else {};
        ContainedAfterRoleChange(t, team, team', a, extra);
      }
    }
  }

  lemma {:induction false} RunKeepsInv(t: Tables, team: Team, steps: seq<Step>)
    requires OrdinaryTables(t) && Inv(t, team) && Feasible(t, team, steps)
    ensures Inv(t, Run(t, team, steps))
    decreases |steps|
  {
    if steps == [] {
    } else {
      StepKeepsInv(t, team, steps[0]);
      RunKeepsInv(t, Apply(t, team, steps[0]), steps[1..]);
    }
  }

  const NEW_TEAM := Team(map[], map[], {})

  // ----- What a history leaves

  lemma {:induction false} RunInit(t: Tables, team: Team, steps: seq<Step>)
    requires Feasible(t, team, steps) && steps != []
    ensures var n := |steps| - 1;
            && Feasible(t, team, steps[..n])
            && Enabled(t, Run(t, team, steps[..n]), steps[n])
            && Run(t, team, steps) == Apply(t, Run(t, team, steps[..n]), steps[n])
    decreases |steps|
  {
    var n := |steps| - 1;
    if n == 0 {
      assert steps[..0] == [] && steps[1..] == [];
      assert Run(t, Apply(t, team, steps[0]), steps[1..]) == Apply(t, team, steps[0]);
    } else {
      RunInit(t, Apply(t, team, steps[0]), steps[1..]);
      assert steps[..n][1..] == steps[1..][..n - 1];
    }
  }

  /** The latest assignment of a member, unless they were removed since. */
  function LastAssigned(steps: seq<Step>, m: Member): Option<Assignment> {
    if steps == [] then None
    else
      match steps[|steps| - 1]
      case OwnerAssigns(to, a) => if to == m then Some(a) else LastAssigned(steps[..|steps| - 1], m)
      case MemberAssigns(_, to, a) => if to == m then Some(a) else LastAssigned(steps[..|steps| - 1], m)
      case Remove(who) => if who == m then None else LastAssigned(steps[..|steps| - 1], m)
      case _ => LastAssigned(steps[..|steps| - 1], m)
  }

  /** What was last written as a custom role, unless it was archived since. */
  function LastWritten(steps: seq<Step>, id: RoleId): Option<seq<string>> {
    if steps == [] then None
    else
      match steps[|steps| - 1]
      case WriteRole(written, _, stored) => if written == id then Some(stored) else LastWritten(steps[..|steps| - 1], id)
      case ArchiveRole(gone) => if gone == id then None else LastWritten(steps[..|steps| - 1], id)
      case _ => LastWritten(steps[..|steps| - 1], id)
  }

  function Lookup<K, V>(m: map<K, V>, k: K): Option<V> {
    if k in m then Some(m[k]) else None
  }

  /** After every history the members and their assignments are the latest ones, and so
      are the custom roles. */
  lemma {:induction false} TeamExactly(t: Tables, steps: seq<Step>, m: Member, id: RoleId)
    requires Feasible(t, NEW_TEAM, steps)
    ensures Lookup(Run(t, NEW_TEAM, steps).members, m) == LastAssigned(steps, m)
    ensures Lookup(Run(t, NEW_TEAM, steps).roles, id) == LastWritten(steps, id)
    decreases |steps|
  {
    if steps == [] {
    } else {
      RunInit(t, NEW_TEAM, steps);
      TeamExactly(t, steps[..|steps| - 1], m, id);
    }
  }

  /** What an assignment asks for: every permission of every role in it, a system role
      with the wildcard counting as the wildcard alone. */
  lemma RequestedExactly(t: Tables, roles: map<RoleId, seq<string>>, a: Assignment, p: string)
    ensures p in Requested(t, roles, a) <==>
            || (exists role :: Names(a.system, role) && role in t.system
                  && if "*" in t.system[role] then p == "*" else p in t.system[role])
            || (exists id :: id in a.customs && id in roles && p in roles[id])
  {
    PooledCustoms(roles, a.customs, p);
    forall role | role in ToRoleArray(a.system)
      ensures p in PermissionsForRoles(t.system, AsInput([role])) <==>
              role in t.system && if "*" in t.system[role] then p == "*" else p in t.system[role]
    {
      var i :| 0 <= i < |ToRoleArray(a.system)| && ToRoleArray(a.system)[i] == role;
      RoleNamesFixed([role]);
      UnionOne(t.system, role);
    }
    forall role
      ensures role in ToRoleArray(a.system) <==> Names(a.system, role)
    {
      ToRoleArrayExactly(a.system, role);
    }
  }

  /** The owner handed out the permission at this step: by an assignment that asks for
      it, or by writing it into a role that some member holds. */
  ghost predicate HandsOut(t: Tables, before: Team, s: Step, p: string) {
    match s
    case OwnerAssigns(_, a) => p in Requested(t, before.roles, a)
    case WriteRole(id, _, stored) => p in stored && exists m :: m in before.members && id in before.members[m].customs
    case _ => false
  }

  /** The record has exactly what the owner handed out. */
  lemma {:induction false} GivenExactly(t: Tables, steps: seq<Step>, p: string)
    requires Feasible(t, NEW_TEAM, steps)
    ensures p in Run(t, NEW_TEAM, steps).given <==>
            exists i :: 0 <= i < |steps| && HandsOut(t, Run(t, NEW_TEAM, steps[..i]), steps[i], p)
    decreases |steps|
  {
    if steps == [] {
    } else {
      var n := |steps| - 1;
      var init := steps[..n];
      RunInit(t, NEW_TEAM, steps);
      GivenExactly(t, init, p);
      assert forall i :: 0 <= i < n ==> init[..i] == steps[..i] && init[i] == steps[i];
      if HandsOut(t, Run(t, NEW_TEAM, init), steps[n], p) {
        assert HandsOut(t, Run(t, NEW_TEAM, steps[..n]), steps[n], p);
      } else if i :| 0 <= i < |init| && HandsOut(t, Run(t, NEW_TEAM, init[..i]), init[i], p) {
        assert HandsOut(t, Run(t, NEW_TEAM, steps[..i]), steps[i], p);
      }
    }
  }

  /** A member may assign exactly what exists and asks only for keys that are not
      owner-only and that they hold themselves. */
  lemma MemberMayAssignExactly(t: Tables, team: Team, granter: Member, to: Member, a: Assignment)
    ensures Enabled(t, team, MemberAssigns(granter, to, a)) <==>
            && granter in team.members
            && (forall id :: id in a.customs ==> id in team.roles)
            && forall p :: p in Requested(t, team.roles, a) ==>
                 && p !in t.cat.ownerOnlyKeys && (p in t.cat.entries ==> !t.cat.entries[p].ownerOnly)
                 && Grants(Effective(t, team.roles, team.members[granter]), p)
  {
    assert forall id :: id in a.customs <==> exists i :: 0 <= i < |a.customs| && a.customs[i] == id;
  }

  /** The owner may store as a role exactly the closure of an input without the
      wildcard, unknown keys and owner-only keys, and may assign all roles there are. */
  lemma OwnerMayExactly(t: Tables, team: Team, id: RoleId, items: seq<Item>, stored: seq<string>, to: Member, a: Assignment)
    ensures Enabled(t, team, WriteRole(id, items, stored)) <==>
            && "*" !in TrimmedKeys(items)
            && (forall k :: k in TrimmedKeys(items) ==>
                  k in t.cat.entries && k !in t.cat.ownerOnlyKeys && !t.cat.entries[k].ownerOnly)
            && Elements(stored) == Closure(t.cat, Elements(TrimmedKeys(items)))
    ensures Enabled(t, team, OwnerAssigns(to, a)) <==> forall c :: c in a.customs ==> c in team.roles
    ensures Enabled(t, team, ArchiveRole(id)) && Enabled(t, team, Remove(to))
  {
    assert forall k :: k in TrimmedKeys(items) <==> k in Elements(TrimmedKeys(items));
    assert forall c :: c in a.customs <==> exists i :: 0 <= i < |a.customs| && a.customs[i] == c;
  }

  // ----- Owner-only keys and the wildcard, over all histories

  predicate OwnerOnlyApartFromRole(cat: Catalogue, listed: seq<string>) {
    if "*" in listed then !OwnerOnly(cat, "*") else forall p :: p in listed ==> !OwnerOnly(cat, p)
  }

  /** No key that anyone may grant needs an owner-only key, and no assignable system
      role brings one in. */
  ghost predicate KeepsOwnerOnlyOut(t: Tables) {
    && OwnerOnlyApart(t.cat)
    && forall role :: role in t.system && IsRoleName(role) ==> OwnerOnlyApartFromRole(t.cat, t.system[role])
  }

  /** After some history of the team a member's list has the key. */
  ghost predicate MemberHolds(t: Tables, steps: seq<Step>, m: Member, key: string) {
    && Feasible(t, NEW_TEAM, steps)
    && var team := Run(t, NEW_TEAM, steps);
       m in team.members && key in Effective(t, team.roles, team.members[m])
  }

  ghost predicate CanHold(t: Tables, key: string) {
    exists steps, m :: MemberHolds(t, steps, m, key)
  }

  /** What is stored as custom roles came out of validation. */
  ghost predicate Validated(cat: Catalogue, stored: seq<string>) {
    Elements(stored) <= cat.entries.Keys && (OwnerOnlyApart(cat) ==> forall p :: p in stored ==> !OwnerOnly(cat, p))
  }

  ghost predicate RolesValidated(t: Tables, team: Team) {
    forall id :: id in team.roles ==> Validated(t.cat, team.roles[id])
  }

  lemma StepKeepsValidated(t: Tables, team: Team, s: Step)
    requires Tidy(t.cat) && RolesValidated(t, team) && Enabled(t, team, s)
    ensures RolesValidated(t, Apply(t, team, s))
  {
    if s.WriteRole? {
      var keys := Elements(TrimmedKeys(s.items));
      ClosureStaysInCatalogue(t.cat, keys);
      if OwnerOnlyApart(t.cat) {
        ClosureKeepsOwnerOnlyOut(t.cat, keys);
      }
      assert forall p :: p in s.stored ==> p in Elements(s.stored);
      assert Validated(t.cat, s.stored);
    }
  }

  lemma {:induction false} RunKeepsValidated(t: Tables, team: Team, steps: seq<Step>)
    requires Tidy(t.cat) && RolesValidated(t, team) && Feasible(t, team, steps)
    ensures RolesValidated(t, Run(t, team, steps))
    decreases |steps|
  {
    if steps == [] {
    } else {
      StepKeepsValidated(t, team, steps[0]);
      RunKeepsValidated(t, Apply(t, team, steps[0]), steps[1..]);
    }
  }

  /** Everything on a member's list comes from an assignable system role or from a
      stored custom role. */
  lemma EffectiveSource(t: Tables, roles: map<RoleId, seq<string>>, a: Assignment, p: string)
    requires p in Effective(t, roles, a)
    ensures || (exists role :: role in t.system && IsRoleName(role) && p in t.system[role]
                               && (p == "*" || "*" !in t.system[role]))
            || FromCustom(roles, a.customs, p)
  {
    var names := ToRoleArray(a.system);
    ToRoleArrayIdempotent(a.system);
    PooledCustoms(roles, a.customs, p);
    if !FromCustom(roles, a.customs, p) {
      var role :| role in names && p in Listed(t.system, role);
      assert "*" in t.system[role] ==> "*" in Union(t.system, names);
    }
  }

  lemma EffectiveKeepsOwnerOnlyOut(t: Tables, team: Team, a: Assignment, key: string)
    requires KeepsOwnerOnlyOut(t) && RolesValidated(t, team) && key in Effective(t, team.roles, a)
    ensures !OwnerOnly(t.cat, key)
  {
    EffectiveSource(t, team.roles, a, key);
    if FromCustom(team.roles, a.customs, key) {
      var id :| id in a.customs && id in team.roles && key in Elements(team.roles[id]);
      assert Validated(t.cat, team.roles[id]);
    }
  }

  lemma OneStep(t: Tables, team: Team, s: Step)
    requires Enabled(t, team, s)
    ensures Feasible(t, team, [s]) && Run(t, team, [s]) == Apply(t, team, s)
  {
    assert [s][1..] == [];
    assert Run(t, Apply(t, team, s), [s][1..]) == Apply(t, team, s);
  }

  lemma TwoSteps(t: Tables, team: Team, s: Step, s': Step)
    requires Enabled(t, team, s) && Enabled(t, Apply(t, team, s), s')
    ensures Feasible(t, team, [s, s']) && Run(t, team, [s, s']) == Apply(t, Apply(t, team, s), s')
  {
    OneStep(t, Apply(t, team, s), s');
    assert [s, s'][1..] == [s'];
  }

  lemma CustomHeld(t: Tables, roles: map<RoleId, seq<string>>, id: RoleId, key: string)
    requires id in roles && key in roles[id]
    ensures key in Effective(t, roles, Assignment(Nothing, [id]))
  {
    assert key in Elements(roles[id]) && id in [id];
    assert FromCustom(roles, [id], key);
    PooledCustoms(roles, [id], key);
    assert ToRoleArray(AsInput(ToRoleArray(Nothing))) == [];
  }

  /** The owner assigns one system role: its list is what the member then holds. */
  lemma AssignSystemRole(t: Tables, role: string, key: string)
    requires role in t.system && IsRoleName(role)
    requires key in t.system[role] && (key == "*" || "*" !in t.system[role])
    ensures CanHold(t, key)
  {
    var a := Assignment(AsInput([role]), []);
    var steps := [OwnerAssigns("m", a)];
    OneStep(t, NEW_TEAM, steps[0]);
    RoleNamesFixed([role]);
    UnionOne(t.system, role);
    assert key in Elements(t.system[role]);
    assert MemberHolds(t, steps, "m", key);
  }

  lemma {:induction false} Listing(s: set<string>) returns (xs: seq<string>)
    ensures Elements(xs) == s
    decreases |s|
  {
    if s == {} {
      xs := [];
    } else {
      var x :| x in s;
      var rest := Listing(s - {x});
      xs := rest + [x];
      ElementsSnoc(rest, x);
    }
  }

  /** The owner writes a role of one key and assigns it: the member holds all that
      the key needs. */
  lemma AssignWrittenRole(t: Tables, k: string, key: string)
    requires Tidy(t.cat) && Acceptable(t.cat, {k}, false) && key in Closure(t.cat, {k})
    ensures CanHold(t, key)
  {
    var stored := Listing(Closure(t.cat, {k}));
    TrimmedKeysFixed([k]);
    assert Elements([k]) == {k};
    var write, assign := WriteRole("r", AsItems([k]), stored), OwnerAssigns("m", Assignment(Nothing, ["r"]));
    TwoSteps(t, NEW_TEAM, write, assign);
    CustomHeld(t, NEW_TEAM.roles["r" := stored], "r", key);
    assert MemberHolds(t, [write, assign], "m", key);
  }

  lemma StoredKeysAreEntries(t: Tables, team: Team, ids: seq<RoleId>)
    requires RolesValidated(t, team)
    ensures forall p :: FromCustom(team.roles, ids, p) ==> p in t.cat.entries
  {
    forall p | FromCustom(team.roles, ids, p)
      ensures p in t.cat.entries
    {
      var id :| id in ids && id in team.roles && p in Elements(team.roles[id]);
      assert Validated(t.cat, team.roles[id]);
    }
  }

  /** Along all histories no member ever holds an owner-only key exactly when the
      tables keep them out. */
  lemma OwnerOnlyNeverHeldExactly(t: Tables)
    requires Tidy(t.cat)
    ensures (forall key :: OwnerOnly(t.cat, key) ==> !CanHold(t, key)) <==> KeepsOwnerOnlyOut(t)
  {
    if KeepsOwnerOnlyOut(t) {
      forall steps, m, key | MemberHolds(t, steps, m, key)
        ensures !OwnerOnly(t.cat, key)
      {
        RunKeepsValidated(t, NEW_TEAM, steps);
        var team := Run(t, NEW_TEAM, steps);
        EffectiveKeepsOwnerOnlyOut(t, team, team.members[m], key);
      }
    } else if !OwnerOnlyApart(t.cat) {
      var k, r :| k in t.cat.entries && !OwnerOnly(t.cat, k) && r in t.cat.entries[k].needs && r in t.cat.entries
                  && OwnerOnly(t.cat, r);
      ClosureOk(t.cat, {k});
      assert k in Closure(t.cat, {k}) && r in Needs(t.cat, k) && Useful(t.cat, r);
      AssignWrittenRole(t, k, r);
    } else {
      var role :| role in t.system && IsRoleName(role) && !OwnerOnlyApartFromRole(t.cat, t.system[role]);
      var key :| key in t.system[role] && OwnerOnly(t.cat, key) && (key == "*" || "*" !in t.system[role]);
      AssignSystemRole(t, role, key);
    }
  }

  /** A member can come to hold the wildcard exactly when some assignable system
      role lists it: never through a custom role. */
  lemma WildcardHeldExactly(t: Tables)
    requires Tidy(t.cat)
    ensures CanHold(t, "*") <==> exists role :: role in t.system && IsRoleName(role) && "*" in t.system[role]
  {
    if role :| role in t.system && IsRoleName(role) && "*" in t.system[role] {
      AssignSystemRole(t, role, "*");
    }
    if CanHold(t, "*") {
      var steps, m :| MemberHolds(t, steps, m, "*");
      RunKeepsValidated(t, NEW_TEAM, steps);
      var team := Run(t, NEW_TEAM, steps);
      EffectiveSource(t, team.roles, team.members[m], "*");
      StoredKeysAreEntries(t, team, team.members[m].customs);
    }
  }

  /** The only star entry of the tables is the wildcard. */
  ghost predicate OnlyWildcards(t: Tables) {
    && (forall k :: k in t.cat.entries ==> !EndsWithStar(k))
    && forall role, p :: role in t.system && IsRoleName(role) && p in t.system[role] && EndsWithStar(p) ==> p == "*"
  }

  /** So whoever may use an owner-only key holds the wildcard. */
  lemma OwnerOnlyNeedsWildcard(t: Tables, steps: seq<Step>, m: Member, key: string)
    requires Tidy(t.cat) && KeepsOwnerOnlyOut(t) && OnlyWildcards(t)
    requires Feasible(t, NEW_TEAM, steps) && m in Run(t, NEW_TEAM, steps).members && OwnerOnly(t.cat, key)
    ensures var team := Run(t, NEW_TEAM, steps);
            var held := Effective(t, team.roles, team.members[m]);
            Grants(held, key) ==> "*" in held
  {
    RunKeepsValidated(t, NEW_TEAM, steps);
    var team := Run(t, NEW_TEAM, steps);
    var a := team.members[m];
    StoredKeysAreEntries(t, team, a.customs);
    forall p | p in Effective(t, team.roles, a)
      ensures p != key && (EndsWithStar(p) ==> p == "*")
    {
      EffectiveSource(t, team.roles, a, p);
      EffectiveKeepsOwnerOnlyOut(t, team, a, p);
    }
  }

  /** Along every history of a team, through any chain of delegated assignments
      and any editing of roles: what a member may do the owner handed out; the
      wildcard and owner-only keys are on a member's list only where the owner put
      them; and where the tables keep owner-only keys out, no list has one. */
  lemma NoEscalation(t: Tables, steps: seq<Step>, m: Member)
    requires OrdinaryTables(t) && Feasible(t, NEW_TEAM, steps) && m in Run(t, NEW_TEAM, steps).members
    ensures var team := Run(t, NEW_TEAM, steps);
            var held := Effective(t, team.roles, team.members[m]);
            && (forall key :: Grants(held, key) ==> Grants(team.given, key))
            && (forall key :: key in held && (key == "*" || OwnerOnly(t.cat, key)) ==> key in team.given)
            && (KeepsOwnerOnlyOut(t) ==> forall key :: key in held ==>
                  key !in t.cat.ownerOnlyKeys && (key in t.cat.entries ==> !t.cat.entries[key].ownerOnly))
  {
    RunKeepsInv(t, NEW_TEAM, steps);
    if KeepsOwnerOnlyOut(t) {
      OwnerOnlyNeverHeldExactly(t);
      var team := Run(t, NEW_TEAM, steps);
      forall key | key in Effective(t, team.roles, team.members[m])
        ensures !OwnerOnly(t.cat, key)
      {
        assert MemberHolds(t, steps, m, key);
      }
    }
  }
}
