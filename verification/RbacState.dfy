/** The stored RBAC relations that prisma/seed.js brings in line with its declared
    tables: permissions, roles, and the links between them. This module has the
    state, the goal of a run, and what each database call keeps. */
module RbacState {
  type Id = nat

  datatype PermRow = PermRow(key: string, name: string, description: string, category: string, isSystem: bool)
  datatype RoleRow = RoleRow(name: string, description: string, isSystem: bool, isDefault: bool)

  /** The relations: rows by generated id, and links (role id, permission id). */
  datatype Db = Db(perms: map<Id, PermRow>, roles: map<Id, RoleRow>, links: set<(Id, Id)>)

  datatype PermDef = PermDef(key: string, name: string, description: string, category: string)
  datatype RoleDef = RoleDef(name: string, description: string, isSystem: bool, keys: seq<string>)

  /** What the program declares. */
  datatype Tables = Tables(perms: seq<PermDef>, roles: seq<RoleDef>)

  function Keys(t: Tables): set<string> {
    set d | d in t.perms :: d.key
  }

  function Names(t: Tables): set<string> {
    set d | d in t.roles :: d.name
  }

  /** Every key and every role is declared once. */
  ghost predicate Distinct(t: Tables) {
    && (forall i, j :: 0 <= i < j < |t.perms| ==> t.perms[i].key != t.perms[j].key)
    && forall i, j :: 0 <= i < j < |t.roles| ==> t.roles[i].name != t.roles[j].name
  }

  /** Unique keys and names, and no link to a row that does not exist. */
  ghost predicate Consistent(db: Db) {
    && (forall p, q :: p in db.perms && q in db.perms && db.perms[p].key == db.perms[q].key ==> p == q)
    && (forall r, s :: r in db.roles && s in db.roles && db.roles[r].name == db.roles[s].name ==> r == s)
    && forall l :: l in db.links ==> l.0 in db.roles && l.1 in db.perms
  }

  // ----- The state without generated ids, and the goal

  datatype View = View(perms: set<PermRow>, roles: set<RoleRow>, links: set<(string, string)>)

  function Named(db: Db, l: (Id, Id)): (string, string)
    requires l.0 in db.roles && l.1 in db.perms
  {
    (db.roles[l.0].name, db.perms[l.1].key)
  }

  ghost function ViewOf(db: Db): View
    requires Consistent(db)
  {
    View(set p | p in db.perms :: db.perms[p],
         set r | r in db.roles :: db.roles[r],
         set l | l in db.links :: Named(db, l))
  }

  predicate SystemKey(v: View, key: string) {
    exists row :: row in v.perms && row.key == key && row.isSystem
  }

  predicate HasRole(v: View, name: string) {
    exists row :: row in v.roles && row.name == name
  }

  predicate SystemRole(v: View, name: string) {
    exists row :: row in v.roles && row.name == name && row.isSystem
  }

  predicate DefaultRole(v: View, name: string) {
    exists row :: row in v.roles && row.name == name && row.isDefault
  }

  /** The row of a declared permission: the flag is not the seed's to change. */
  function PermGoal(v: View, d: PermDef): PermRow {
    PermRow(d.key, d.name, d.description, d.category, SystemKey(v, d.key))
  }

  function RoleGoal(v: View, d: RoleDef): RoleRow {
    RoleRow(d.name, d.description, if HasRole(v, d.name) then SystemRole(v, d.name) else d.isSystem, DefaultRole(v, d.name))
  }

  /** Where a run is to end: exactly the declared permissions; the declared roles
      with exactly their declared links; all other roles as they are, without
      their links to permissions no longer declared. */
  function Goal(t: Tables, v: View): View {
    View(set d | d in t.perms :: PermGoal(v, d),
         (set row | row in v.roles && row.name !in Names(t)) + (set d | d in t.roles :: RoleGoal(v, d)),
         (set l | l in v.links && l.0 !in Names(t) && l.1 in Keys(t))
         + (set d, k | d in t.roles && k in d.keys && k in Keys(t) :: (d.name, k)))
  }

  lemma GoalPermFlag(t: Tables, v: View, d: PermDef)
    requires Distinct(t) && d in t.perms
    ensures SystemKey(Goal(t, v), d.key) == SystemKey(v, d.key)
  {
  }

  lemma GoalRoleFlags(t: Tables, v: View, d: RoleDef)
    requires Distinct(t) && d in t.roles
    ensures RoleGoal(Goal(t, v), d) == RoleGoal(v, d)
  {
  }

  /** A goal is its own goal: nothing is left to do once it is reached. */
  lemma GoalIsStable(t: Tables, v: View)
    requires Distinct(t)
    ensures Goal(t, Goal(t, v)) == Goal(t, v)
  {
    var g := Goal(t, v);
    forall d | d in t.perms
      ensures PermGoal(g, d) == PermGoal(v, d)
    {
      GoalPermFlag(t, v, d);
    }
    forall d | d in t.roles
      ensures RoleGoal(g, d) == RoleGoal(v, d) && d.name in Names(t)
    {
      GoalRoleFlags(t, v, d);
    }
    var again := Goal(t, g);
    assert again.perms == g.perms;
    assert again.roles == g.roles;
    assert again.links == g.links;
  }

  predicate DeclaredLink(t: Tables, l: (string, string)) {
    exists d :: d in t.roles && l.0 == d.name && l.1 in d.keys && l.1 in Keys(t)
  }

  /** What a run is to reach, and what it must not lose on the way: the declared links,
      and the ids of declared permissions and of all roles, which users refer to. */
  datatype Course = Course(
    goal: View, kept: set<(string, string)>, permIds: map<Id, string>, roleIds: map<Id, string>)

  ghost function Start(t: Tables, db: Db): Course
    requires Consistent(db)
  {
    Course(Goal(t, ViewOf(db)),
           set l | l in ViewOf(db).links && DeclaredLink(t, l),
           map p | p in db.perms && db.perms[p].key in Keys(t) :: db.perms[p].key,
           map r | r in db.roles :: db.roles[r].name)
  }

  /** The rows of the start are still there under their ids. */
  predicate IdsKept(t: Tables, db: Db, course: Course) {
    && (forall p :: p in course.permIds ==>
          p in db.perms && db.perms[p].key == course.permIds[p] && course.permIds[p] in Keys(t))
    && forall r :: r in course.roleIds ==> r in db.roles && db.roles[r].name == course.roleIds[r]
  }

  /** Consistent, still heading for the same goal, and with the declared links and the
      ids of the start. */
  ghost predicate OnCourse(t: Tables, db: Db, course: Course) {
    && Consistent(db)
    && Goal(t, ViewOf(db)) == course.goal
    && course.kept <= ViewOf(db).links
    && (forall l :: l in course.kept ==> DeclaredLink(t, l))
    && IdsKept(t, db, course)
  }

  // ----- Database calls

  function DropLinks(db: Db, gone: set<Id>): Db {
    db.(links := set l | l in db.links && l.1 !in gone)
  }

  function DropPerms(db: Db, gone: set<Id>): Db {
    db.(perms := db.perms - gone)
  }

  function PutPerm(db: Db, id: Id, d: PermDef): Db {
    var isSystem := id in db.perms && db.perms[id].isSystem;
    db.(perms := db.perms[id := PermRow(d.key, d.name, d.description, d.category, isSystem)])
  }

  function PutRole(db: Db, id: Id, d: RoleDef): Db {
    db.(roles := db.roles[id :=
      if id in db.roles then db.roles[id].(description := d.description)
      else RoleRow(d.name, d.description, d.isSystem, false)])
  }

  function Link(db: Db, role: Id, perms: set<Id>): Db {
    db.(links := db.links + set p | p in perms :: (role, p))
  }

  function Unlink(db: Db, role: Id, perms: set<Id>): Db {
    db.(links := set l | l in db.links && !(l.0 == role && l.1 in perms))
  }

  /** The id an upsert writes to: the row with that unique value, or a new id. */
  predicate PermSlot(db: Db, key: string, id: Id) {
    if id in db.perms then db.perms[id].key == key
    else forall p :: p in db.perms ==> db.perms[p].key != key
  }

  predicate RoleSlot(db: Db, name: string, id: Id) {
    if id in db.roles then db.roles[id].name == name
    else forall r :: r in db.roles ==> db.roles[r].name != name
  }

  // ----- Every call stays on course

  /** Two states agree on everything the goal keeps. */
  ghost predicate SameEssence(t: Tables, v: View, v': View) {
    && (forall d :: d in t.perms ==> PermGoal(v, d) == PermGoal(v', d))
    && (forall d :: d in t.roles ==> RoleGoal(v, d) == RoleGoal(v', d))
    && (forall row :: row in v.roles && row.name !in Names(t) ==> row in v'.roles)
    && (forall row :: row in v'.roles && row.name !in Names(t) ==> row in v.roles)
    && (forall l :: l in v.links && l.0 !in Names(t) && l.1 in Keys(t) ==> l in v'.links)
    && (forall l :: l in v'.links && l.0 !in Names(t) && l.1 in Keys(t) ==> l in v.links)
  }

  lemma SameEssenceSameGoal(t: Tables, v: View, v': View)
    requires SameEssence(t, v, v')
    ensures Goal(t, v) == Goal(t, v')
  {
  }

  lemma DropLinksOnCourse(t: Tables, db: Db, gone: set<Id>, course: Course)
    requires OnCourse(t, db, course)
    requires forall p :: p in gone && p in db.perms ==> db.perms[p].key !in Keys(t)
    ensures OnCourse(t, DropLinks(db, gone), course)
  {
    var db' := DropLinks(db, gone);
    var v, v' := ViewOf(db), ViewOf(db');
    assert v'.perms == v.perms && v'.roles == v.roles;
    forall l | l in v.links && l.1 in Keys(t)
      ensures l in v'.links
    {
      var k :| k in db.links && l == Named(db, k);
      assert k in db'.links && Named(db', k) == l;
    }
    forall l | l in v'.links
      ensures l in v.links
    {
      var k :| k in db'.links && l == Named(db', k);
      assert k in db.links && Named(db, k) == l;
    }
    SameEssenceSameGoal(t, v, v');
  }

  /** Links are seen the same when the rows they join keep their unique values. */
  lemma SameLinks(db: Db, db': Db)
    requires Consistent(db) && Consistent(db') && db.links == db'.links
    requires forall l :: l in db.links ==> Named(db, l) == Named(db', l)
    ensures ViewOf(db).links == ViewOf(db').links
  {
  }

  /** Rows may go once no link refers to them. */
  lemma DropPermsOnCourse(t: Tables, db: Db, gone: set<Id>, course: Course)
    requires OnCourse(t, db, course)
    requires forall p :: p in gone && p in db.perms ==> db.perms[p].key !in Keys(t)
    requires forall l :: l in db.links ==> l.1 !in gone
    ensures OnCourse(t, DropPerms(db, gone), course)
  {
    var db' := DropPerms(db, gone);
    var v, v' := ViewOf(db), ViewOf(db');
    assert v'.roles == v.roles;
    forall k | k in Keys(t)
      ensures SystemKey(v, k) <==> SystemKey(v', k)
    {
      if row :| row in v.perms && row.key == k && row.isSystem {
        var p :| p in db.perms && db.perms[p] == row;
        assert p in db'.perms && db'.perms[p] in v'.perms;
      }
      if row :| row in v'.perms && row.key == k && row.isSystem {
        var p :| p in db'.perms && db'.perms[p] == row;
        assert db.perms[p] in v.perms;
      }
    }
    SameLinks(db, db');
    SameEssenceSameGoal(t, v, v');
  }

  lemma PutPermConsistent(db: Db, id: Id, d: PermDef)
    requires Consistent(db) && PermSlot(db, d.key, id)
    ensures Consistent(PutPerm(db, id, d))
  {
  }

  lemma PutPermFlag(db: Db, id: Id, d: PermDef, k: string)
    requires Consistent(db) && Consistent(PutPerm(db, id, d)) && PermSlot(db, d.key, id)
    ensures SystemKey(ViewOf(db), k) <==> SystemKey(ViewOf(PutPerm(db, id, d)), k)
  {
    var db' := PutPerm(db, id, d);
    var v, v' := ViewOf(db), ViewOf(db');
    if row :| row in v.perms && row.key == k && row.isSystem {
      var p :| p in db.perms && db.perms[p] == row;
      assert db'.perms[p] in v'.perms;
    }
    if row :| row in v'.perms && row.key == k && row.isSystem {
      var p :| p in db'.perms && db'.perms[p] == row;
      assert p in db.perms && db.perms[p] in v.perms;
    }
  }

  lemma PutPermOnCourse(t: Tables, db: Db, id: Id, d: PermDef, course: Course)
    requires OnCourse(t, db, course) && PermSlot(db, d.key, id)
    ensures OnCourse(t, PutPerm(db, id, d), course)
  {
    var db' := PutPerm(db, id, d);
    PutPermConsistent(db, id, d);
    var v, v' := ViewOf(db), ViewOf(db');
    assert v'.roles == v.roles;
    forall e | e in t.perms
      ensures PermGoal(v, e) == PermGoal(v', e)
    {
      PutPermFlag(db, id, d, e.key);
    }
    SameLinks(db, db');
    SameEssenceSameGoal(t, v, v');
  }

  lemma RoleFlags(db: Db, name: string, id: Id)
    requires Consistent(db) && id in db.roles && db.roles[id].name == name
    ensures var v := ViewOf(db);
            && HasRole(v, name)
            && SystemRole(v, name) == db.roles[id].isSystem
            && DefaultRole(v, name) == db.roles[id].isDefault
  {
  }

  lemma RoleAbsent(db: Db, name: string)
    requires Consistent(db) && forall r :: r in db.roles ==> db.roles[r].name != name
    ensures var v := ViewOf(db); !HasRole(v, name) && !SystemRole(v, name) && !DefaultRole(v, name)
  {
  }

  lemma OtherRoleFlags(db: Db, db': Db, id: Id, name: string)
    requires Consistent(db) && Consistent(db')
    requires db.roles - {id} == db'.roles - {id}
    requires id in db'.roles && db'.roles[id].name != name && (id in db.roles ==> db.roles[id].name != name)
    ensures forall row: RoleRow :: row.name == name ==> (row in ViewOf(db).roles <==> row in ViewOf(db').roles)
  {
    var v, v' := ViewOf(db), ViewOf(db');
    forall row: RoleRow | row.name == name && row in v.roles
      ensures row in v'.roles
    {
      var r :| r in db.roles && db.roles[r] == row;
      assert r in db.roles - {id} && (db.roles - {id})[r] == row;
      assert r in db'.roles - {id};
      assert db'.roles[r] == row;
    }
    forall row: RoleRow | row.name == name && row in v'.roles
      ensures row in v.roles
    {
      var r :| r in db'.roles && db'.roles[r] == row;
      assert r in db'.roles - {id} && (db'.roles - {id})[r] == row;
      assert r in db.roles - {id};
      assert db.roles[r] == row;
    }
  }

  lemma PutRoleConsistent(db: Db, id: Id, d: RoleDef)
    requires Consistent(db) && RoleSlot(db, d.name, id)
    ensures Consistent(PutRole(db, id, d)) && db.roles - {id} == PutRole(db, id, d).roles - {id}
  {
  }

  lemma PutRoleGoal(db: Db, id: Id, d: RoleDef)
    requires Consistent(db) && Consistent(PutRole(db, id, d)) && RoleSlot(db, d.name, id)
    ensures RoleGoal(ViewOf(db), d) == RoleGoal(ViewOf(PutRole(db, id, d)), d)
  {
    RoleFlags(PutRole(db, id, d), d.name, id);
    if id in db.roles {
      RoleFlags(db, d.name, id);
    } else {
      RoleAbsent(db, d.name);
    }
  }

  lemma PutRoleOnCourse(t: Tables, db: Db, id: Id, d: RoleDef, course: Course)
    requires OnCourse(t, db, course) && RoleSlot(db, d.name, id) && d in t.roles && Distinct(t)
    ensures OnCourse(t, PutRole(db, id, d), course)
  {
    var db' := PutRole(db, id, d);
    PutRoleConsistent(db, id, d);
    var v, v' := ViewOf(db), ViewOf(db');
    assert v'.perms == v.perms;
    forall e | e in t.roles
      ensures RoleGoal(v, e) == RoleGoal(v', e)
    {
      if e.name == d.name {
        assert e == d;
        PutRoleGoal(db, id, d);
      } else {
        OtherRoleFlags(db, db', id, e.name);
      }
    }
    forall row: RoleRow | row.name !in Names(t)
      ensures row in v.roles <==> row in v'.roles
    {
      OtherRoleFlags(db, db', id, row.name);
    }
    SameLinks(db, db');
    SameEssenceSameGoal(t, v, v');
  }

  /** Changing the links of a declared role is always on course. */
  lemma RelinkOnCourse(t: Tables, db: Db, db': Db, role: Id, course: Course)
    requires OnCourse(t, db, course)
    requires db'.perms == db.perms && db'.roles == db.roles && Consistent(db')
    requires role in db.roles && db.roles[role].name in Names(t)
    requires forall l: (Id, Id) :: l.0 != role ==> (l in db.links <==> l in db'.links)
    requires course.kept <= ViewOf(db').links
    ensures OnCourse(t, db', course)
  {
    var v, v' := ViewOf(db), ViewOf(db');
    assert v'.perms == v.perms && v'.roles == v.roles;
    forall l: (string, string) | l.0 !in Names(t)
      ensures l in v.links <==> l in v'.links
    {
      if l in v.links {
        var k :| k in db.links && l == Named(db, k);
        assert k in db'.links && Named(db', k) == l;
      }
      if l in v'.links {
        var k :| k in db'.links && l == Named(db', k);
        assert k in db.links && Named(db, k) == l;
      }
    }
    SameEssenceSameGoal(t, v, v');
  }

  // ----- Having arrived

  predicate SameDef(row: PermRow, d: PermDef) {
    row.key == d.key && row.name == d.name && row.description == d.description && row.category == d.category
  }

  predicate PermDone(db: Db, d: PermDef) {
    exists p :: p in db.perms && SameDef(db.perms[p], d)
  }

  /** Exactly the declared permissions, as declared. */
  predicate PermsDone(t: Tables, db: Db) {
    && (forall p :: p in db.perms ==> db.perms[p].key in Keys(t))
    && forall i :: 0 <= i < |t.perms| ==> PermDone(db, t.perms[i])
  }

  /** The role row as declared, linked to exactly the permissions with its keys. */
  predicate RoleDoneAt(db: Db, d: RoleDef, r: Id) {
    && r in db.roles && db.roles[r].name == d.name && db.roles[r].description == d.description
    && forall p :: p in db.perms ==> ((r, p) in db.links <==> db.perms[p].key in d.keys)
  }

  ghost predicate RoleDone(db: Db, d: RoleDef) {
    exists r :: RoleDoneAt(db, d, r)
  }

  ghost predicate Settled(t: Tables, db: Db) {
    && PermsDone(t, db)
    && forall i :: 0 <= i < |t.roles| ==> RoleDone(db, t.roles[i])
  }

  lemma SettledPerms(t: Tables, db: Db)
    requires Consistent(db) && PermsDone(t, db)
    ensures ViewOf(db).perms == Goal(t, ViewOf(db)).perms
  {
  }

  lemma SettledRoles(t: Tables, db: Db)
    requires Consistent(db) && Settled(t, db)
    ensures ViewOf(db).roles == Goal(t, ViewOf(db)).roles
  {
  }

  lemma GoalLinks(t: Tables, v: View, l: (string, string))
    ensures l in Goal(t, v).links <==>
            (l in v.links && l.0 !in Names(t) && l.1 in Keys(t)) || DeclaredLink(t, l)
  {
  }

  lemma SettledLinks(t: Tables, db: Db)
    requires Consistent(db) && Settled(t, db)
    ensures ViewOf(db).links == Goal(t, ViewOf(db)).links
  {
  }

  /** Settled is having reached one's goal. */
  lemma SettledIsGoal(t: Tables, db: Db)
    requires Consistent(db) && Settled(t, db)
    ensures ViewOf(db) == Goal(t, ViewOf(db))
  {
    SettledPerms(t, db);
    SettledRoles(t, db);
    SettledLinks(t, db);
  }

  lemma GoalLinkAt(t: Tables, db: Db, d: RoleDef, r: Id, p: Id)
    requires Consistent(db) && Distinct(t) && ViewOf(db) == Goal(t, ViewOf(db)) && d in t.roles
    requires r in db.roles && db.roles[r].name == d.name && p in db.perms
    ensures (r, p) in db.links <==> db.perms[p].key in d.keys
  {
    var v := ViewOf(db);
    var l := (d.name, db.perms[p].key);
    GoalLinks(t, v, l);
    assert db.perms[p] in v.perms;
    if (r, p) in db.links {
      assert Named(db, (r, p)) == l && l in v.links;
      var e :| e in t.roles && l.0 == e.name && l.1 in e.keys && l.1 in Keys(t);
      assert e == d;
    }
    if db.perms[p].key in d.keys {
      assert DeclaredLink(t, l);
      var k :| k in db.links && Named(db, k) == l;
      assert k == (r, p);
    }
  }

  lemma GoalRoleDone(t: Tables, db: Db, d: RoleDef)
    requires Consistent(db) && Distinct(t) && ViewOf(db) == Goal(t, ViewOf(db)) && d in t.roles
    ensures RoleDone(db, d)
  {
    var v := ViewOf(db);
    assert RoleGoal(v, d) in v.roles;
    var r: Id :| r in db.roles && db.roles[r] == RoleGoal(v, d);
    forall p | p in db.perms
      ensures (r, p) in db.links <==> db.perms[p].key in d.keys
    {
      GoalLinkAt(t, db, d, r, p);
    }
    assert RoleDoneAt(db, d, r);
  }

  lemma GoalIsSettled(t: Tables, db: Db)
    requires Consistent(db) && Distinct(t) && ViewOf(db) == Goal(t, ViewOf(db))
    ensures Settled(t, db)
  {
    var v := ViewOf(db);
    forall p | p in db.perms
      ensures db.perms[p].key in Keys(t)
    {
      assert db.perms[p] in v.perms;
    }
    forall i | 0 <= i < |t.perms|
      ensures PermDone(db, t.perms[i])
    {
      assert t.perms[i] in t.perms;
      assert PermGoal(v, t.perms[i]) in v.perms;
    }
    forall i | 0 <= i < |t.roles|
      ensures RoleDone(db, t.roles[i])
    {
      GoalRoleDone(t, db, t.roles[i]);
    }
  }

  // ----- Effect of the calls on what is done

  lemma PutPermDone(db: Db, id: Id, d: PermDef)
    requires Consistent(db) && PermSlot(db, d.key, id)
    ensures PermDone(PutPerm(db, id, d), d)
    ensures PermDone(db, d) ==> PutPerm(db, id, d) == db
  {
    var db' := PutPerm(db, id, d);
    assert id in db'.perms && SameDef(db'.perms[id], d);
    if PermDone(db, d) {
      var p: Id :| p in db.perms && SameDef(db.perms[p], d);
      assert p == id;
      assert db'.perms == db.perms;
    }
  }

  lemma PutPermKeepsDone(db: Db, id: Id, d: PermDef, e: PermDef)
    requires Consistent(db) && PermSlot(db, d.key, id) && PermDone(db, e) && e.key != d.key
    ensures PermDone(PutPerm(db, id, d), e)
  {
    var p: Id :| p in db.perms && SameDef(db.perms[p], e);
    assert PutPerm(db, id, d).perms[p] == db.perms[p];
  }

  predicate OnlyDeclared(t: Tables, db: Db) {
    forall p :: p in db.perms ==> db.perms[p].key in Keys(t)
  }

  /** The first n declared permissions are as declared, and no other is stored. */
  predicate PermsUpTo(t: Tables, db: Db, n: nat)
    requires n <= |t.perms|
  {
    OnlyDeclared(t, db) && forall j :: 0 <= j < n ==> PermDone(db, t.perms[j])
  }

  lemma PutPermStep(t: Tables, db: Db, id: Id, n: nat)
    requires Distinct(t) && n < |t.perms|
    requires Consistent(db) && PermsUpTo(t, db, n) && PermSlot(db, t.perms[n].key, id)
    ensures PermsUpTo(t, PutPerm(db, id, t.perms[n]), n + 1)
    ensures PermsDone(t, db) ==> PutPerm(db, id, t.perms[n]) == db
  {
    var d := t.perms[n];
    assert d in t.perms && d.key in Keys(t);
    PutPermDone(db, id, d);
    forall j | 0 <= j < n
      ensures PermDone(PutPerm(db, id, d), t.perms[j])
    {
      PutPermKeepsDone(db, id, d, t.perms[j]);
    }
  }

  /** One role's links replaced by exactly the given ones. */
  function Relinked(db: Db, role: Id, target: set<Id>): Db {
    db.(links := (set l | l in db.links && l.0 != role) + set p | p in target :: (role, p))
  }

  /** Adding what is missing and removing what is extra does just that. */
  lemma AddThenRemove(db: Db, role: Id, target: set<Id>, existing: set<Id>)
    requires forall p: Id :: p in existing <==> (role, p) in db.links
    ensures Unlink(Link(db, role, target - existing), role, existing - target) == Relinked(db, role, target)
    ensures target <= existing ==> Link(db, role, target - existing) == db
    ensures existing <= target ==>
              Unlink(Link(db, role, target - existing), role, existing - target) == Link(db, role, target - existing)
  {
  }

  lemma LinkOnCourse(t: Tables, db: Db, role: Id, targets: set<Id>, course: Course)
    requires OnCourse(t, db, course) && role in db.roles && db.roles[role].name in Names(t)
    requires forall p :: p in targets ==> p in db.perms
    ensures OnCourse(t, Link(db, role, targets), course)
  {
    var db' := Link(db, role, targets);
    forall l | l in course.kept
      ensures l in ViewOf(db').links
    {
      var k :| k in db.links && l == Named(db, k);
      assert k in db'.links && Named(db', k) == l;
    }
    RelinkOnCourse(t, db, db', role, course);
  }

  /** Links may go that are not to be kept. */
  lemma UnlinkOnCourse(t: Tables, db: Db, role: Id, targets: set<Id>, course: Course)
    requires OnCourse(t, db, course) && role in db.roles && db.roles[role].name in Names(t)
    requires forall p :: p in targets && p in db.perms ==> (db.roles[role].name, db.perms[p].key) !in course.kept
    ensures OnCourse(t, Unlink(db, role, targets), course)
  {
    var db' := Unlink(db, role, targets);
    forall l | l in course.kept
      ensures l in ViewOf(db').links
    {
      var k :| k in db.links && l == Named(db, k);
      assert k in db'.links && Named(db', k) == l;
    }
    RelinkOnCourse(t, db, db', role, course);
  }

  function SetOf(ids: seq<Id>): set<Id> {
    set p | p in ids
  }

  /** The ids of a role's keys, looked up one by one. */
  predicate LookedUp(db: Db, keys: seq<string>, ids: seq<Id>) {
    |ids| == |keys| && forall j :: 0 <= j < |ids| ==> ids[j] in db.perms && db.perms[ids[j]].key == keys[j]
  }

  lemma RelinkedDone(db: Db, role: Id, d: RoleDef, ids: seq<Id>)
    requires Consistent(db) && RoleSlot(db, d.name, role) && LookedUp(db, d.keys, ids)
    ensures RoleDoneAt(Relinked(PutRole(db, role, d), role, SetOf(ids)), d, role)
  {
  }

  lemma PutRoleSame(db: Db, role: Id, d: RoleDef)
    requires Consistent(db) && RoleSlot(db, d.name, role) && RoleDone(db, d)
    ensures PutRole(db, role, d) == db && RoleDoneAt(db, d, role)
  {
  }

  lemma RelinkedSame(db: Db, role: Id, d: RoleDef, ids: seq<Id>)
    requires Consistent(db) && RoleSlot(db, d.name, role) && LookedUp(db, d.keys, ids) && RoleDone(db, d)
    ensures Relinked(PutRole(db, role, d), role, SetOf(ids)) == db
  {
  }

  /** The rows of other roles stay, and so do their links. */
  lemma OtherRoleKept(db: Db, db': Db, role: Id, d: RoleDef, e: RoleDef)
    requires Consistent(db) && RoleSlot(db, d.name, role) && e.name != d.name && RoleDone(db, e)
    requires db'.perms == db.perms && db'.roles == PutRole(db, role, d).roles
    requires forall l: (Id, Id) :: l.0 != role ==> (l in db.links <==> l in db'.links)
    ensures RoleDone(db', e)
  {
    var r: Id :| RoleDoneAt(db, e, r);
    assert r != role;
    assert RoleDoneAt(db', e, r);
  }

  lemma MissingKey(t: Tables, db: Db, key: string)
    requires PermsDone(t, db) && forall p :: p in db.perms ==> db.perms[p].key != key
    ensures key !in Keys(t)
  {
  }
}
