/** The RBAC part of prisma/seed.js as a program over the database: three stored
    relations are brought in line with declared tables, one call at a time. */
module RbacSeed {
  import opened Wrappers
  import opened RbacState

  /** The log only grew, and every state added to it is on course. */
  ghost predicate LogOnCourse(t: Tables, before: seq<Db>, after: seq<Db>, course: Course) {
    before <= after && forall i :: |before| <= i < |after| ==> OnCourse(t, after[i], course)
  }

  lemma LogChain(t: Tables, a: seq<Db>, b: seq<Db>, c: seq<Db>, course: Course)
    requires LogOnCourse(t, a, b, course) && LogOnCourse(t, b, c, course)
    ensures LogOnCourse(t, a, c, course)
  {
  }

  lemma LogStep(t: Tables, a: seq<Db>, b: seq<Db>, db: Db, course: Course)
    requires LogOnCourse(t, a, b, course) && OnCourse(t, db, course)
    ensures LogOnCourse(t, a, b + [db], course)
  {
  }

  /** Whatever was written since, the state always read the same. */
  ghost predicate LogStays(before: seq<Db>, after: seq<Db>, db: Db) {
    before <= after && forall i :: |before| <= i < |after| ==> after[i] == db
  }

  /** The program gets through a role exactly when its keys are declared and a key
      listed twice is already linked. */
  ghost predicate Acceptable(t: Tables, v: View, d: RoleDef) {
    && (forall k :: k in d.keys ==> k in Keys(t))
    && forall i, j :: 0 <= i < j < |d.keys| && d.keys[i] == d.keys[j] ==> (d.name, d.keys[i]) in v.links
  }

  ghost predicate AllAcceptable(t: Tables, v: View) {
    forall i :: 0 <= i < |t.roles| ==> Acceptable(t, v, t.roles[i])
  }

  ghost predicate SameDeclaredLinks(t: Tables, v: View, v': View) {
    forall l: (string, string) :: l.1 in Keys(t) ==> (l in v.links <==> l in v'.links)
  }

  ghost predicate SameOtherLinks(name: string, v: View, v': View) {
    forall l: (string, string) :: l.0 != name ==> (l in v.links <==> l in v'.links)
  }

  ghost predicate SameOtherRows(name: string, v: View, v': View) {
    forall row: RoleRow :: row.name != name ==> (row in v.roles <==> row in v'.roles)
  }

  /** The links of a role that are not to be lost are among those it will get. */
  ghost predicate KeptListed(db: Db, role: Id, ids: seq<Id>, course: Course)
    requires role in db.roles
  {
    forall p :: p in db.perms && (db.roles[role].name, db.perms[p].key) in course.kept ==> p in ids
  }

  lemma KeptAreListed(t: Tables, db: Db, role: Id, d: RoleDef, ids: seq<Id>, course: Course)
    requires Distinct(t) && OnCourse(t, db, course) && d in t.roles && LookedUp(db, d.keys, ids)
    requires role in db.roles && db.roles[role].name == d.name
    ensures KeptListed(db, role, ids, course)
  {
    forall p | p in db.perms && (d.name, db.perms[p].key) in course.kept
      ensures p in ids
    {
      assert DeclaredLink(t, (d.name, db.perms[p].key));
      var e :| e in t.roles && d.name == e.name && db.perms[p].key in e.keys;
      assert e == d;
      var j :| 0 <= j < |d.keys| && d.keys[j] == db.perms[p].key;
      assert ids[j] == p;
    }
  }

  /** On course a state stays acceptable: no repeated key loses its link. */
  lemma CourseKeepsAcceptable(t: Tables, start: Db, db: Db)
    requires Consistent(start) && OnCourse(t, db, Start(t, start)) && AllAcceptable(t, ViewOf(start))
    ensures AllAcceptable(t, ViewOf(db))
  {
    forall n | 0 <= n < |t.roles|
      ensures Acceptable(t, ViewOf(db), t.roles[n])
    {
      var d := t.roles[n];
      assert d in t.roles && Acceptable(t, ViewOf(start), d);
      forall i, j | 0 <= i < j < |d.keys| && d.keys[i] == d.keys[j]
        ensures (d.name, d.keys[i]) in ViewOf(db).links
      {
        assert DeclaredLink(t, (d.name, d.keys[i]));
        assert (d.name, d.keys[i]) in Start(t, start).kept;
      }
    }
  }

  /** The declared roles from n on have their links as they were. */
  ghost predicate ComingLinks(t: Tables, n: nat, v: View, v': View)
    requires n <= |t.roles|
  {
    forall j, l: (string, string) :: n <= j < |t.roles| && l.0 == t.roles[j].name && l.1 in Keys(t) ==>
      (l in v.links <==> l in v'.links)
  }

  /** And their rows. */
  ghost predicate ComingRows(t: Tables, n: nat, v: View, v': View)
    requires n <= |t.roles|
  {
    forall j, row: RoleRow :: n <= j < |t.roles| && row.name == t.roles[j].name ==>
      (row in v.roles <==> row in v'.roles)
  }

  /** The role that stopped the run: looked at only, or upserted but not linked. */
  ghost predicate StoppedBy(t: Tables, v: View, v': View, r: Outcome, d: RoleDef) {
    match r
    case Done => false
    case MissingPermission(key) =>
      key in d.keys && key !in Keys(t) && forall row: RoleRow :: row.name == d.name ==> (row in v.roles <==> row in v'.roles)
    case DuplicateLink =>
      (forall k :: k in d.keys ==> k in Keys(t)) && RoleGoal(v, d) in v'.roles
  }

  /** The run ended at the n-th role: all before it are as declared, it has kept its
      links, and so has every role after it, with its row. */
  ghost predicate StoppedAt(t: Tables, v: View, end: Db, r: Outcome, n: nat)
    requires Consistent(end)
  {
    && n < |t.roles|
    && PermsDone(t, end)
    && (forall j :: 0 <= j < n ==> RoleDone(end, t.roles[j]) && Acceptable(t, v, t.roles[j]))
    && !Acceptable(t, v, t.roles[n])
    && ComingLinks(t, n, v, ViewOf(end))
    && ComingRows(t, n + 1, v, ViewOf(end))
    && StoppedBy(t, v, ViewOf(end), r, t.roles[n])
  }

  datatype Outcome = Done | MissingPermission(key: string) | DuplicateLink

  /** What a run from `start` guarantees, with the states it wrote. Each of them has no
      dangling link, heads for the same goal, and is acceptable if the start was. The
      run completes exactly when the start is acceptable, and then the goal is reached;
      from a state that is its own goal it writes nothing new. */
  ghost predicate Seeded(t: Tables, start: Db, written: seq<Db>, end: Db, r: Outcome)
    requires Consistent(start)
  {
    var v := ViewOf(start);
    && OnCourse(t, end, Start(t, start))
    && (forall db :: db in written ==>
          OnCourse(t, db, Start(t, start)) && (AllAcceptable(t, v) ==> AllAcceptable(t, ViewOf(db))))
    && (r == Done <==> AllAcceptable(t, v))
    && (r == Done ==> ViewOf(end) == Goal(t, v))
    && (r != Done ==> exists n :: StoppedAt(t, v, end, r, n))
    && (v == Goal(t, v) ==> end == start && forall db :: db in written ==> db == start)
  }

  lemma WrittenOnCourse(t: Tables, start: Db, before: seq<Db>, after: seq<Db>)
    requires Consistent(start) && LogOnCourse(t, before, after, Start(t, start))
    ensures var v := ViewOf(start);
            forall db :: db in after[|before|..] ==>
              OnCourse(t, db, Start(t, start)) && (AllAcceptable(t, v) ==> AllAcceptable(t, ViewOf(db)))
  {
    var v := ViewOf(start);
    forall db | db in after[|before|..]
      ensures OnCourse(t, db, Start(t, start)) && (AllAcceptable(t, v) ==> AllAcceptable(t, ViewOf(db)))
    {
      var i :| 0 <= i < |after| - |before| && after[|before|..][i] == db;
      assert after[|before| + i] == db;
      if AllAcceptable(t, v) {
        CourseKeepsAcceptable(t, start, db);
      }
    }
  }

  lemma ComingAcceptable(t: Tables, n: nat, v: View, v': View)
    requires n < |t.roles| && ComingLinks(t, n, v, v')
    ensures Acceptable(t, v, t.roles[n]) <==> Acceptable(t, v', t.roles[n])
  {
  }

  lemma SameAcceptable(t: Tables, v: View, v': View)
    requires SameDeclaredLinks(t, v, v')
    ensures AllAcceptable(t, v) <==> AllAcceptable(t, v')
  {
  }

  /** The first n roles are through, the others untouched. */
  ghost predicate RolesUpTo(t: Tables, v: View, db: Db, n: nat)
    requires n <= |t.roles| && Consistent(db)
  {
    && (forall j :: 0 <= j < n ==> RoleDone(db, t.roles[j]) && Acceptable(t, v, t.roles[j]))
    && ComingLinks(t, n, v, ViewOf(db))
    && ComingRows(t, n, v, ViewOf(db))
  }

  /** What one role's turn leaves of the others: those done, and all links and rows. */
  ghost predicate OthersStay(t: Tables, d: RoleDef, db: Db, db': Db)
    requires Consistent(db) && Consistent(db')
  {
    && (forall e :: e in t.roles && e != d && RoleDone(db, e) ==> RoleDone(db', e))
    && SameOtherLinks(d.name, ViewOf(db), ViewOf(db'))
    && SameOtherRows(d.name, ViewOf(db), ViewOf(db'))
  }

  lemma EarlierStay(t: Tables, db: Db, db': Db, n: nat)
    requires Distinct(t) && n < |t.roles| && Consistent(db) && Consistent(db')
    requires OthersStay(t, t.roles[n], db, db')
    requires forall j :: 0 <= j < n ==> RoleDone(db, t.roles[j])
    ensures forall j :: 0 <= j < n ==> RoleDone(db', t.roles[j])
  {
    forall j | 0 <= j < n
      ensures RoleDone(db', t.roles[j])
    {
      assert t.roles[j] in t.roles && t.roles[j] != t.roles[n];
    }
  }

  lemma RolesStep(t: Tables, v: View, db: Db, db': Db, n: nat)
    requires Distinct(t) && n < |t.roles| && Consistent(db) && Consistent(db')
    requires RolesUpTo(t, v, db, n) && Acceptable(t, v, t.roles[n]) && RoleDone(db', t.roles[n])
    requires OthersStay(t, t.roles[n], db, db')
    ensures RolesUpTo(t, v, db', n + 1)
  {
    EarlierStay(t, db, db', n);
  }

  lemma StoppedHere(t: Tables, v: View, db: Db, db': Db, r: Outcome, n: nat)
    requires Distinct(t) && n < |t.roles| && Consistent(db) && Consistent(db')
    requires RolesUpTo(t, v, db, n) && PermsDone(t, db') && !Acceptable(t, v, t.roles[n])
    requires OthersStay(t, t.roles[n], db, db') && ViewOf(db').links == ViewOf(db).links
    requires StoppedBy(t, ViewOf(db), ViewOf(db'), r, t.roles[n])
    ensures StoppedAt(t, v, db', r, n)
  {
    EarlierStay(t, db, db', n);
  }

  /** Where the roles were stopped is where the run was. */
  lemma StoppedSince(t: Tables, v: View, w: View, end: Db, r: Outcome, n: nat)
    requires Consistent(end) && SameDeclaredLinks(t, v, w) && v.roles == w.roles
    requires StoppedAt(t, w, end, r, n)
    ensures StoppedAt(t, v, end, r, n)
  {
  }

  lemma AllThrough(t: Tables, v: View, db: Db)
    requires Consistent(db) && PermsDone(t, db) && RolesUpTo(t, v, db, |t.roles|)
    ensures Settled(t, db) && AllAcceptable(t, v)
  {
  }

  lemma SettledRole(t: Tables, db: Db, n: nat)
    requires n < |t.roles|
    ensures Settled(t, db) ==> RoleDone(db, t.roles[n])
    ensures t.roles[n] in t.roles
  {
  }

  /** Nothing but the row and the links of one role differs. */
  ghost predicate OnlyRoleAt(db: Db, db': Db, role: Id, d: RoleDef) {
    && RoleSlot(db, d.name, role)
    && db'.perms == db.perms && db'.roles == PutRole(db, role, d).roles
    && forall l: (Id, Id) :: l.0 != role ==> (l in db.links <==> l in db'.links)
  }

  ghost predicate OnlyRole(db: Db, db': Db, d: RoleDef) {
    exists role :: OnlyRoleAt(db, db', role, d)
  }

  lemma OtherRowsKept(db: Db, db': Db, d: RoleDef)
    requires Consistent(db) && Consistent(db') && OnlyRole(db, db', d)
    ensures SameOtherRows(d.name, ViewOf(db), ViewOf(db'))
  {
    var role: Id :| OnlyRoleAt(db, db', role, d);
    PutRoleConsistent(db, role, d);
    forall row: RoleRow | row.name != d.name
      ensures row in ViewOf(db).roles <==> row in ViewOf(db').roles
    {
      OtherRoleFlags(db, db', role, row.name);
    }
  }

  lemma OtherLinksKept(db: Db, db': Db, d: RoleDef)
    requires Consistent(db) && Consistent(db') && OnlyRole(db, db', d)
    ensures SameOtherLinks(d.name, ViewOf(db), ViewOf(db'))
  {
    var role: Id :| OnlyRoleAt(db, db', role, d);
    forall l: (string, string) | l.0 != d.name
      ensures l in ViewOf(db).links <==> l in ViewOf(db').links
    {
      if l in ViewOf(db).links {
        var k :| k in db.links && l == Named(db, k);
        assert k in db'.links && Named(db', k) == l;
      }
      if l in ViewOf(db').links {
        var k :| k in db'.links && l == Named(db', k);
        assert k in db.links && Named(db, k) == l;
      }
    }
  }

  lemma OthersKept(t: Tables, db: Db, db': Db, d: RoleDef)
    requires Distinct(t) && Consistent(db) && Consistent(db') && d in t.roles && OnlyRole(db, db', d)
    ensures OthersStay(t, d, db, db')
  {
    OtherRowsKept(db, db', d);
    OtherLinksKept(db, db', d);
    var role: Id :| OnlyRoleAt(db, db', role, d);
    forall e | e in t.roles && e != d && RoleDone(db, e)
      ensures RoleDone(db', e)
    {
      OtherRoleKept(db, db', role, d, e);
    }
  }

  /** A role whose insertion is refused has its new row and its old links. */
  lemma RefusedRole(db: Db, db': Db, d: RoleDef)
    requires Consistent(db) && Consistent(db') && OnlyRole(db, db', d) && db'.links == db.links
    ensures ViewOf(db').links == ViewOf(db).links && RoleGoal(ViewOf(db), d) in ViewOf(db').roles
  {
    var role: Id :| OnlyRoleAt(db, db', role, d);
    SameLinks(db, db');
    if role in db.roles {
      RoleFlags(db, d.name, role);
    } else {
      RoleAbsent(db, d.name);
    }
    assert db'.roles[role] in ViewOf(db').roles;
  }

  lemma StaleLinksOnly(t: Tables, db: Db, gone: set<Id>)
    requires Consistent(db) && Consistent(DropPerms(DropLinks(db, gone), gone))
    requires forall p :: p in gone && p in db.perms ==> db.perms[p].key !in Keys(t)
    ensures SameDeclaredLinks(t, ViewOf(db), ViewOf(DropPerms(DropLinks(db, gone), gone)))
  {
  }

  lemma LinkableExactly(t: Tables, db: Db, role: Id, d: RoleDef, ids: seq<Id>)
    requires Consistent(db) && RoleSlot(db, d.name, role) && LookedUp(db, d.keys, ids)
    requires forall k :: k in d.keys ==> k in Keys(t)
    ensures Acceptable(t, ViewOf(db), d) <==>
            forall i, j :: 0 <= i < j < |ids| && ids[i] == ids[j] ==> (role, ids[i]) in db.links
  {
  }

  lemma LinkedExactly(db: Db, role: Id, d: RoleDef, ids: seq<Id>)
    requires Consistent(db) && RoleDoneAt(db, d, role) && LookedUp(db, d.keys, ids)
    ensures forall p: Id :: p in ids <==> (role, p) in db.links
  {
  }

  /** What a role is like after its upsert and the reconciliation of its links. */
  lemma RoleSynced(db: Db, db': Db, role: Id, d: RoleDef, ids: seq<Id>, ok: bool)
    requires Consistent(db) && RoleSlot(db, d.name, role) && LookedUp(db, d.keys, ids)
    requires var put := PutRole(db, role, d);
             db' == if ok then Relinked(put, role, SetOf(ids)) else put
    ensures OnlyRole(db, db', d)
    ensures ok ==> RoleDone(db', d)
  {
    assert OnlyRoleAt(db, db', role, d);
    RelinkedDone(db, role, d, ids);
  }

  /** And what happens to one that was as declared before. */
  lemma RoleSyncedBefore(db: Db, role: Id, d: RoleDef, ids: seq<Id>)
    requires Consistent(db) && RoleSlot(db, d.name, role) && LookedUp(db, d.keys, ids) && RoleDone(db, d)
    ensures PutRole(db, role, d) == db && Relinked(db, role, SetOf(ids)) == db
    ensures forall p: Id :: p in ids <==> (role, p) in db.links
  {
    PutRoleSame(db, role, d);
    RelinkedSame(db, role, d, ids);
    LinkedExactly(db, role, d, ids);
  }

  lemma ExistingLinks(db: Db, role: Id, existing: set<Id>)
    requires existing == set l | l in db.links && l.0 == role :: l.1
    ensures forall p: Id :: p in existing <==> (role, p) in db.links
  {
  }

  predicate AllDiffer(ids: seq<Id>) {
    forall i, j :: 0 <= i < j < |ids| ==> ids[i] != ids[j]
  }

  predicate RepeatsLinked(ids: seq<Id>, existing: set<Id>) {
    forall i, j :: 0 <= i < j < |ids| && ids[i] == ids[j] ==> ids[i] in existing
  }

  lemma DifferStep(x: Id, rest: seq<Id>)
    ensures AllDiffer([x] + rest) <==> x !in rest && AllDiffer(rest)
  {
    var s := [x] + rest;
    assert forall i :: 0 <= i < |rest| ==> rest[i] == s[i + 1];
    if x in rest {
      var k :| 0 <= k < |rest| && rest[k] == x;
      assert s[0] == s[k + 1];
    }
  }

  lemma RepeatsStep(ids: seq<Id>, existing: set<Id>)
    requires ids != []
    ensures RepeatsLinked(ids, existing) <==>
            RepeatsLinked(ids[1..], existing) && (ids[0] in ids[1..] ==> ids[0] in existing)
  {
  }

  /** The ids that are not linked yet, in order, repeated ones repeated. */
  function Missing(ids: seq<Id>, existing: set<Id>): (r: seq<Id>)
    ensures forall p :: p in r <==> p in ids && p !in existing
    ensures AllDiffer(r) <==> RepeatsLinked(ids, existing)
  {
    if ids == [] then []
    else
      var rest := Missing(ids[1..], existing);
      RepeatsStep(ids, existing);
      DifferStep(ids[0], rest);
      if ids[0] in existing then rest else [ids[0]] + rest
  }

  class Database {
    var perms: map<Id, PermRow>
    var roles: map<Id, RoleRow>
    var links: set<(Id, Id)>
    ghost var log: seq<Db>  // the state after every write

    function Snapshot(): Db
      reads this
    {
      Db(perms, roles, links)
    }

    method FindPerm(key: string) returns (r: Option<Id>)
      ensures r.Some? ==> r.value in perms && perms[r.value].key == key
      ensures r.None? ==> forall p :: p in perms ==> perms[p].key != key
    {
      if p :| p in perms && perms[p].key == key {
        return Some(p);
      }
      return None;
    }

    method FindRole(name: string) returns (r: Option<Id>)
      ensures r.Some? ==> r.value in roles && roles[r.value].name == name
      ensures r.None? ==> forall p :: p in roles ==> roles[p].name != name
    {
      if p :| p in roles && roles[p].name == name {
        return Some(p);
      }
      return None;
    }

    /** A generated id: any that is not taken. */
    method NewId(taken: set<Id>) returns (id: Id)
      ensures id !in taken
    {
      id := 0;
      var rest := taken;
      while rest != {}
        invariant forall x :: x in taken && x !in rest ==> x < id
        decreases rest
      {
        var x :| x in rest;
        if x >= id { id := x + 1; }
        rest := rest - {x};
      }
    }

    method UpsertPerm(d: PermDef) returns (id: Id)
      modifies this
      ensures PermSlot(old(Snapshot()), d.key, id)
      ensures Snapshot() == PutPerm(old(Snapshot()), id, d) && log == old(log) + [Snapshot()]
    {
      var found := FindPerm(d.key);
      if found.Some? {
        id := found.value;
        perms := perms[id := perms[id].(name := d.name, description := d.description, category := d.category)];
      } else {
        id := NewId(perms.Keys);
        perms := perms[id := PermRow(d.key, d.name, d.description, d.category, false)];
      }
      log := log + [Snapshot()];
    }

    method UpsertRole(d: RoleDef) returns (id: Id)
      modifies this
      ensures RoleSlot(old(Snapshot()), d.name, id)
      ensures Snapshot() == PutRole(old(Snapshot()), id, d) && log == old(log) + [Snapshot()]
    {
      var found := FindRole(d.name);
      if found.Some? {
        id := found.value;
        roles := roles[id := roles[id].(description := d.description)];
      } else {
        id := NewId(roles.Keys);
        roles := roles[id := RoleRow(d.name, d.description, d.isSystem, false)];
      }
      log := log + [Snapshot()];
    }

    method DeleteLinksTo(gone: set<Id>)
      modifies this
      ensures Snapshot() == DropLinks(old(Snapshot()), gone) && log == old(log) + [Snapshot()]
    {
      links := set l | l in links && l.1 !in gone;
      log := log + [Snapshot()];
    }

    method DeletePerms(gone: set<Id>)
      modifies this
      ensures Snapshot() == DropPerms(old(Snapshot()), gone) && log == old(log) + [Snapshot()]
    {
      perms := perms - gone;
      log := log + [Snapshot()];
    }

    /** Refused as a whole when a link would be stored twice. */
    method CreateLinks(role: Id, targets: seq<Id>) returns (ok: bool)
      modifies this
      ensures ok <==> AllDiffer(targets) && forall i :: 0 <= i < |targets| ==> (role, targets[i]) !in old(links)
      ensures ok ==> Snapshot() == Link(old(Snapshot()), role, SetOf(targets)) && log == old(log) + [Snapshot()]
      ensures !ok ==> Snapshot() == old(Snapshot()) && log == old(log)
    {
      if !AllDiffer(targets) || (exists i :: 0 <= i < |targets| && (role, targets[i]) in links) {
        return false;
      }
      ghost var added := SetOf(targets);
      links := links + set p | p in targets :: (role, p);
      assert links == old(links) + set p | p in added :: (role, p);
      log := log + [Snapshot()];
      return true;
    }

    method DeleteLinks(role: Id, gone: set<Id>)
      modifies this
      ensures Snapshot() == Unlink(old(Snapshot()), role, gone) && log == old(log) + [Snapshot()]
    {
      links := set l | l in links && !(l.0 == role && l.1 in gone);
      log := log + [Snapshot()];
    }

    // ----- The program

    /** Links to stale permissions go first, so none is ever left dangling. */
    method RemoveStale(t: Tables, ghost course: Course)
      requires OnCourse(t, Snapshot(), course)
      modifies this
      ensures OnCourse(t, Snapshot(), course) && LogOnCourse(t, old(log), log, course)
      ensures OnlyDeclared(t, Snapshot())
      ensures OnlyDeclared(t, old(Snapshot())) ==> Snapshot() == old(Snapshot()) && log == old(log)
      ensures SameDeclaredLinks(t, old(ViewOf(Snapshot())), ViewOf(Snapshot())) && roles == old(roles)
    {
      ghost var was := Snapshot();
      var valid := Keys(t);
      var stale := set p | p in perms && perms[p].key !in valid;
      assert forall p :: p in perms && perms[p].key !in valid ==> p in stale;
      if stale != {} {
        DropLinksOnCourse(t, was, stale, course);
        DeleteLinksTo(stale);
        DropPermsOnCourse(t, DropLinks(was, stale), stale, course);
        DeletePerms(stale);
        StaleLinksOnly(t, was, stale);
      }
    }

    method SeedPerm(t: Tables, n: nat, ghost course: Course)
      requires Distinct(t) && n < |t.perms| && OnCourse(t, Snapshot(), course) && PermsUpTo(t, Snapshot(), n)
      modifies this
      ensures OnCourse(t, Snapshot(), course) && LogOnCourse(t, old(log), log, course)
      ensures PermsUpTo(t, Snapshot(), n + 1)
      ensures PermsDone(t, old(Snapshot())) ==> Snapshot() == old(Snapshot()) && LogStays(old(log), log, Snapshot())
      ensures ViewOf(Snapshot()).links == old(ViewOf(Snapshot()).links) && roles == old(roles)
    {
      ghost var was := Snapshot();
      var id := UpsertPerm(t.perms[n]);
      PutPermOnCourse(t, was, id, t.perms[n], course);
      PutPermStep(t, was, id, n);
      SameLinks(was, Snapshot());
    }

    /** Removes what is no longer declared, links first, then upserts the catalogue. */
    method SeedPermissions(t: Tables, ghost course: Course)
      requires Distinct(t) && OnCourse(t, Snapshot(), course)
      modifies this
      ensures OnCourse(t, Snapshot(), course) && LogOnCourse(t, old(log), log, course)
      ensures PermsDone(t, Snapshot())
      ensures PermsDone(t, old(Snapshot())) ==> Snapshot() == old(Snapshot()) && LogStays(old(log), log, Snapshot())
      ensures SameDeclaredLinks(t, old(ViewOf(Snapshot())), ViewOf(Snapshot())) && roles == old(roles)
    {
      ghost var was := Snapshot();
      RemoveStale(t, course);
      for i := 0 to |t.perms|
        invariant OnCourse(t, Snapshot(), course) && LogOnCourse(t, old(log), log, course)
        invariant PermsUpTo(t, Snapshot(), i)
        invariant PermsDone(t, was) ==> Snapshot() == was && LogStays(old(log), log, was)
        invariant SameDeclaredLinks(t, ViewOf(was), ViewOf(Snapshot())) && roles == old(roles)
      {
        ghost var before := log;
        SeedPerm(t, i, course);
        LogChain(t, old(log), before, log, course);
      }
    }

    method LookUpKeys(t: Tables, keys: seq<string>) returns (missing: Option<string>, ids: seq<Id>)
      requires PermsDone(t, Snapshot())
      ensures missing.None? ==> LookedUp(Snapshot(), keys, ids) && forall k :: k in keys ==> k in Keys(t)
      ensures missing.Some? ==> missing.value in keys && missing.value !in Keys(t)
    {
      ids := [];
      for i := 0 to |keys|
        invariant LookedUp(Snapshot(), keys[..i], ids)
        invariant forall j :: 0 <= j < i ==> keys[j] in Keys(t)
      {
        var found := FindPerm(keys[i]);
        if found.None? {
          MissingKey(t, Snapshot(), keys[i]);
          return Some(keys[i]), ids;
        }
        ids := ids + [found.value];
      }
      assert keys[..|keys|] == keys;
      missing := None;
    }

    method AddMissing(t: Tables, role: Id, ids: seq<Id>, existing: set<Id>, ghost course: Course) returns (ok: bool)
      requires OnCourse(t, Snapshot(), course) && role in roles && roles[role].name in Names(t)
      requires forall p :: p in ids ==> p in perms
      requires forall p: Id :: p in existing <==> (role, p) in links
      modifies this
      ensures OnCourse(t, Snapshot(), course) && LogOnCourse(t, old(log), log, course)
      ensures Snapshot() == if ok then Link(old(Snapshot()), role, SetOf(ids) - existing) else old(Snapshot())
      ensures ok <==> forall i, j :: 0 <= i < j < |ids| && ids[i] == ids[j] ==> (role, ids[i]) in old(links)
      ensures SetOf(ids) <= existing ==> log == old(log)
    {
      ghost var was, target := Snapshot(), SetOf(ids);
      AddThenRemove(was, role, target, existing);
      LinkOnCourse(t, was, role, target - existing, course);
      var toAdd := Missing(ids, existing);
      assert target - existing == SetOf(toAdd);
      assert |toAdd| > 0 ==> toAdd[0] in target - existing;
      if |toAdd| == 0 {
        return true;
      }
      ok := CreateLinks(role, toAdd);
    }

    method RemoveExtra(t: Tables, role: Id, ids: seq<Id>, existing: set<Id>, ghost course: Course)
      requires OnCourse(t, Snapshot(), course) && role in roles && roles[role].name in Names(t)
      requires KeptListed(Snapshot(), role, ids, course)
      modifies this
      ensures OnCourse(t, Snapshot(), course) && LogOnCourse(t, old(log), log, course)
      ensures Snapshot() == Unlink(old(Snapshot()), role, existing - SetOf(ids))
      ensures existing <= SetOf(ids) ==> log == old(log)
    {
      ghost var was := Snapshot();
      UnlinkOnCourse(t, was, role, existing - SetOf(ids), course);
      var toRemove := set p | p in existing && p !in ids;
      assert toRemove == existing - SetOf(ids);
      if toRemove == {} {
        assert Unlink(was, role, {}).links == links;
        return;
      }
      DeleteLinks(role, toRemove);
    }

    /** Links the role to exactly the given permissions: first adds, then removes. */
    method ReconcileLinks(t: Tables, role: Id, ids: seq<Id>, ghost course: Course) returns (ok: bool)
      requires OnCourse(t, Snapshot(), course) && role in roles && roles[role].name in Names(t)
      requires forall p :: p in ids ==> p in perms
      requires KeptListed(Snapshot(), role, ids, course)
      modifies this
      ensures OnCourse(t, Snapshot(), course) && LogOnCourse(t, old(log), log, course)
      ensures Snapshot() == if ok then Relinked(old(Snapshot()), role, SetOf(ids)) else old(Snapshot())
      ensures ok <==> forall i, j :: 0 <= i < j < |ids| && ids[i] == ids[j] ==> (role, ids[i]) in old(links)
      ensures (forall p: Id :: p in ids <==> (role, p) in old(links)) ==> log == old(log)
    {
      ghost var was, target := Snapshot(), SetOf(ids);
      var existing := set l | l in links && l.0 == role :: l.1;
      ExistingLinks(was, role, existing);
      AddThenRemove(was, role, target, existing);
      ok := AddMissing(t, role, ids, existing, course);
      if ok {
        ghost var linked, before := Snapshot(), log;
        RemoveExtra(t, role, ids, existing, course);
        LogChain(t, old(log), before, log, course);
      }
    }

    method SyncRole(t: Tables, d: RoleDef, ids: seq<Id>, ghost course: Course) returns (ok: bool)
      requires Distinct(t) && OnCourse(t, Snapshot(), course) && d in t.roles && LookedUp(Snapshot(), d.keys, ids)
      requires forall k :: k in d.keys ==> k in Keys(t)
      modifies this
      ensures OnCourse(t, Snapshot(), course) && LogOnCourse(t, old(log), log, course)
      ensures OnlyRole(old(Snapshot()), Snapshot(), d)
      ensures if ok then RoleDone(Snapshot(), d) else links == old(links)
      ensures ok <==> Acceptable(t, old(ViewOf(Snapshot())), d)
      ensures RoleDone(old(Snapshot()), d) ==> Snapshot() == old(Snapshot()) && LogStays(old(log), log, Snapshot())
    {
      ghost var was := Snapshot();
      var role := UpsertRole(d);
      PutRoleOnCourse(t, was, role, d, course);
      LogStep(t, old(log), old(log), Snapshot(), course);
      ghost var upserted := log;
      KeptAreListed(t, Snapshot(), role, d, ids, course);
      ok := ReconcileLinks(t, role, ids, course);
      LogChain(t, old(log), upserted, log, course);
      RoleSynced(was, Snapshot(), role, d, ids, ok);
      LinkableExactly(t, was, role, d, ids);
      if RoleDone(was, d) {
        RoleSyncedBefore(was, role, d, ids);
      }
    }

    /** One role: look its permissions up, upsert it, and reconcile its links. */
    method SeedRole(t: Tables, d: RoleDef, ghost course: Course) returns (r: Outcome)
      requires Distinct(t) && OnCourse(t, Snapshot(), course) && PermsDone(t, Snapshot()) && d in t.roles
      modifies this
      ensures OnCourse(t, Snapshot(), course) && LogOnCourse(t, old(log), log, course)
      ensures perms == old(perms)
      ensures r == Done ==> RoleDone(Snapshot(), d)
      ensures r == Done <==> Acceptable(t, old(ViewOf(Snapshot())), d)
      ensures OthersStay(t, d, old(Snapshot()), Snapshot())
      ensures RoleDone(old(Snapshot()), d) ==> Snapshot() == old(Snapshot()) && LogStays(old(log), log, Snapshot())
      ensures r != Done ==>
                && ViewOf(Snapshot()).links == old(ViewOf(Snapshot()).links)
                && StoppedBy(t, old(ViewOf(Snapshot())), ViewOf(Snapshot()), r, d)
    {
      ghost var was := Snapshot();
      var missing, ids := LookUpKeys(t, d.keys);
      if missing.Some? {
        return MissingPermission(missing.value);
      }
      var ok := SyncRole(t, d, ids, course);
      OthersKept(t, was, Snapshot(), d);
      if !ok {
        RefusedRole(was, Snapshot(), d);
      }
      return if ok then Done else DuplicateLink;
    }

    method SeedNth(t: Tables, n: nat, ghost v: View, ghost course: Course) returns (r: Outcome)
      requires Distinct(t) && n < |t.roles| && OnCourse(t, Snapshot(), course) && PermsDone(t, Snapshot())
      requires RolesUpTo(t, v, Snapshot(), n)
      modifies this
      ensures OnCourse(t, Snapshot(), course) && LogOnCourse(t, old(log), log, course)
      ensures PermsDone(t, Snapshot())
      ensures if r == Done then RolesUpTo(t, v, Snapshot(), n + 1) else StoppedAt(t, v, Snapshot(), r, n)
      ensures RoleDone(old(Snapshot()), t.roles[n]) ==>
                Snapshot() == old(Snapshot()) && LogStays(old(log), log, Snapshot())
    {
      ghost var was := Snapshot();
      ComingAcceptable(t, n, v, ViewOf(was));
      r := SeedRole(t, t.roles[n], course);
      if r == Done {
        RolesStep(t, v, was, Snapshot(), n);
      } else {
        StoppedHere(t, v, was, Snapshot(), r, n);
      }
    }

    method SeedRoles(t: Tables, ghost v: View, ghost course: Course) returns (r: Outcome)
      requires Distinct(t) && OnCourse(t, Snapshot(), course) && PermsDone(t, Snapshot())
      requires v == ViewOf(Snapshot())
      modifies this
      ensures OnCourse(t, Snapshot(), course) && LogOnCourse(t, old(log), log, course)
      ensures r == Done ==> Settled(t, Snapshot()) && AllAcceptable(t, v)
      ensures r != Done ==> exists n :: StoppedAt(t, v, Snapshot(), r, n)
      ensures Settled(t, old(Snapshot())) ==> Snapshot() == old(Snapshot()) && LogStays(old(log), log, Snapshot())
    {
      ghost var was := Snapshot();
      for i := 0 to |t.roles|
        invariant OnCourse(t, Snapshot(), course) && LogOnCourse(t, old(log), log, course)
        invariant PermsDone(t, Snapshot())
        invariant RolesUpTo(t, v, Snapshot(), i)
        invariant Settled(t, was) ==> Snapshot() == was && LogStays(old(log), log, was)
      {
        ghost var before := log;
        SettledRole(t, was, i);
        r := SeedNth(t, i, v, course);
        LogChain(t, old(log), before, log, course);
        if r != Done {
          return;
        }
      }
      AllThrough(t, v, Snapshot());
      return Done;
    }

    /** Permissions, then roles. Any run, also one that stops early, passes only
        through states that are on the course of its start. */
    method Seed(t: Tables) returns (r: Outcome)
      requires Distinct(t) && Consistent(Snapshot())
      modifies this
      ensures old(log) <= log && Seeded(t, old(Snapshot()), log[|old(log)|..], Snapshot(), r)
    {
      ghost var was := Snapshot();
      ghost var course := Start(t, was);
      if ViewOf(was) == course.goal {
        GoalIsSettled(t, was);
      }
      SeedPermissions(t, course);
      ghost var between, before := Snapshot(), log;
      SameAcceptable(t, ViewOf(was), ViewOf(between));
      r := SeedRoles(t, ViewOf(between), course);
      LogChain(t, old(log), before, log, course);
      if r == Done {
        SettledIsGoal(t, Snapshot());
      } else {
        ghost var n :| StoppedAt(t, ViewOf(between), Snapshot(), r, n);
        StoppedSince(t, ViewOf(was), ViewOf(between), Snapshot(), r, n);
      }
      WrittenOnCourse(t, was, old(log), log);
    }
  }

  // ----- What a completed run leaves, row by row

  predicate HadFlag(start: Db, p: Id, key: string) {
    p in start.perms && start.perms[p].key == key && start.perms[p].isSystem
  }

  lemma CompletedFlag(t: Tables, start: Db, end: Db, d: PermDef, p: Id)
    requires Consistent(start) && Consistent(end) && IdsKept(t, end, Start(t, start))
    requires d in t.perms && p in end.perms && end.perms[p].key == d.key
    ensures SystemKey(ViewOf(start), d.key) <==> HadFlag(start, p, d.key)
  {
    if row :| row in ViewOf(start).perms && row.key == d.key && row.isSystem {
      var q: Id :| q in start.perms && start.perms[q] == row;
      assert q in Start(t, start).permIds && q == p;
    }
    if HadFlag(start, p, d.key) {
      assert start.perms[p] in ViewOf(start).perms;
    }
  }

  /** The permissions: of those there before, the declared ones keep their id and their
      flag, the others are gone; a new one has no flag; and all read as declared. */
  lemma CompletedPermissions(t: Tables, start: Db, written: seq<Db>, end: Db, r: Outcome)
    requires Distinct(t) && Consistent(start) && Seeded(t, start, written, end, r) && r == Done
    ensures forall d :: d in t.perms ==> exists p :: p in end.perms && end.perms[p].key == d.key
    ensures forall p :: p in end.perms ==>
              exists d :: d in t.perms && end.perms[p] ==
                PermRow(d.key, d.name, d.description, d.category, HadFlag(start, p, d.key))
    ensures forall p, d :: p in start.perms && d in t.perms && d.key == start.perms[p].key ==>
              p in end.perms && end.perms[p].key == d.key
  {
    var v, g := ViewOf(start), ViewOf(end);
    forall d | d in t.perms
      ensures exists p :: p in end.perms && end.perms[p].key == d.key
    {
      assert PermGoal(v, d) in g.perms;
    }
    forall p, d | p in start.perms && d in t.perms && d.key == start.perms[p].key
      ensures p in end.perms && end.perms[p].key == d.key
    {
      assert p in Start(t, start).permIds;
    }
    forall p | p in end.perms
      ensures exists d :: d in t.perms && end.perms[p] ==
                PermRow(d.key, d.name, d.description, d.category, HadFlag(start, p, d.key))
    {
      assert end.perms[p] in g.perms;
      var d :| d in t.perms && end.perms[p] == PermGoal(v, d);
      CompletedFlag(t, start, end, d, p);
    }
  }

  predicate DeclaredRole(t: Tables, name: string) {
    exists d :: d in t.roles && d.name == name
  }

  lemma RoleIdKept(t: Tables, start: Db, end: Db, id: Id)
    requires Consistent(start) && IdsKept(t, end, Start(t, start)) && id in start.roles
    ensures id in end.roles && end.roles[id].name == start.roles[id].name
  {
    assert id in Start(t, start).roleIds;
  }

  lemma CompletedRole(t: Tables, start: Db, end: Db, id: Id)
    requires Distinct(t) && Consistent(start) && Consistent(end) && IdsKept(t, end, Start(t, start))
    requires ViewOf(end).roles == Goal(t, ViewOf(start)).roles && id in end.roles
    ensures if id in start.roles && !DeclaredRole(t, end.roles[id].name) then end.roles[id] == start.roles[id]
            else exists d :: d in t.roles && end.roles[id] == RoleGoal(ViewOf(start), d)
  {
    var v, row := ViewOf(start), end.roles[id];
    assert row in ViewOf(end).roles;
    if row in v.roles && row.name !in Names(t) {
      var q: Id :| q in start.roles && start.roles[q] == row;
      RoleIdKept(t, start, end, q);
      assert q == id;
    }
  }

  lemma CompletedRoleFlags(t: Tables, start: Db, end: Db, id: Id, d: RoleDef)
    requires Consistent(start) && Consistent(end) && IdsKept(t, end, Start(t, start))
    requires id in end.roles && end.roles[id] == RoleGoal(ViewOf(start), d)
    ensures end.roles[id] ==
              if id in start.roles then RoleRow(d.name, d.description, start.roles[id].isSystem, start.roles[id].isDefault)
              else RoleRow(d.name, d.description, d.isSystem, false)
  {
    forall q | q in start.roles
      ensures start.roles[q].name == d.name <==> q == id
    {
      RoleIdKept(t, start, end, q);
    }
    if id in start.roles {
      RoleFlags(start, d.name, id);
    } else {
      RoleAbsent(start, d.name);
    }
  }

  /** The roles: all that were there keep their id, name and flags, and a declared one
      gets its description; the new ones are the declared ones that were not there. */
  lemma CompletedRoles(t: Tables, start: Db, written: seq<Db>, end: Db, r: Outcome)
    requires Distinct(t) && Consistent(start) && Seeded(t, start, written, end, r) && r == Done
    ensures forall d :: d in t.roles ==> exists id :: id in end.roles && end.roles[id].name == d.name
    ensures forall id :: id in start.roles ==> id in end.roles && end.roles[id].name == start.roles[id].name
    ensures forall id :: id in end.roles && id in start.roles && !DeclaredRole(t, end.roles[id].name) ==>
              end.roles[id] == start.roles[id]
    ensures forall id :: id in end.roles && (id !in start.roles || DeclaredRole(t, end.roles[id].name)) ==>
              exists d :: d in t.roles && end.roles[id] ==
                if id in start.roles then RoleRow(d.name, d.description, start.roles[id].isSystem, start.roles[id].isDefault)
                else RoleRow(d.name, d.description, d.isSystem, false)
  {
    var v, g := ViewOf(start), ViewOf(end);
    forall d | d in t.roles
      ensures exists id :: id in end.roles && end.roles[id].name == d.name
    {
      assert RoleGoal(v, d) in g.roles;
    }
    forall id | id in start.roles
      ensures id in end.roles && end.roles[id].name == start.roles[id].name
    {
      RoleIdKept(t, start, end, id);
    }
    forall id | id in end.roles && id in start.roles && !DeclaredRole(t, end.roles[id].name)
      ensures end.roles[id] == start.roles[id]
    {
      CompletedRole(t, start, end, id);
    }
    forall id | id in end.roles && (id !in start.roles || DeclaredRole(t, end.roles[id].name))
      ensures exists d :: d in t.roles && end.roles[id] ==
                if id in start.roles then RoleRow(d.name, d.description, start.roles[id].isSystem, start.roles[id].isDefault)
                else RoleRow(d.name, d.description, d.isSystem, false)
    {
      CompletedRole(t, start, end, id);
      var d :| d in t.roles && end.roles[id] == RoleGoal(v, d);
      CompletedRoleFlags(t, start, end, id, d);
    }
  }

  /** A link of rows that are stored now, seen in the view of the end and of the start. */
  lemma LinkInViews(t: Tables, start: Db, end: Db, id: Id, p: Id)
    requires Consistent(start) && Consistent(end) && IdsKept(t, end, Start(t, start))
    requires id in end.roles && p in end.perms && end.perms[p].key in Keys(t)
    ensures var l := (end.roles[id].name, end.perms[p].key);
            && (l in ViewOf(end).links <==> (id, p) in end.links)
            && (l in ViewOf(start).links <==> (id, p) in start.links && start.perms[p].key == end.perms[p].key)
  {
    var l := (end.roles[id].name, end.perms[p].key);
    if (id, p) in end.links {
      assert Named(end, (id, p)) == l;
    }
    if (id, p) in start.links && start.perms[p].key == end.perms[p].key {
      RoleIdKept(t, start, end, id);
      assert Named(start, (id, p)) == l;
    }
    if l in ViewOf(start).links {
      var k: (Id, Id) :| k in start.links && Named(start, k) == l;
      RoleIdKept(t, start, end, k.0);
      assert k.1 in Start(t, start).permIds && k == (id, p);
    }
  }

  lemma OtherRoleLink(t: Tables, start: Db, end: Db, id: Id, p: Id)
    requires Consistent(start) && Consistent(end) && IdsKept(t, end, Start(t, start))
    requires ViewOf(end) == Goal(t, ViewOf(start))
    requires id in end.roles && p in end.perms && !DeclaredRole(t, end.roles[id].name)
    ensures (id, p) in end.links <==> (id, p) in start.links && start.perms[p].key == end.perms[p].key
  {
    assert end.perms[p] in ViewOf(end).perms && end.perms[p].key in Keys(t);
    GoalLinks(t, ViewOf(start), (end.roles[id].name, end.perms[p].key));
    LinkInViews(t, start, end, id, p);
  }

  /** The links: a declared role is linked to exactly the permissions it lists, and any
      other to those it was linked to before, as far as they are still there. */
  lemma CompletedLinks(t: Tables, start: Db, written: seq<Db>, end: Db, r: Outcome)
    requires Distinct(t) && Consistent(start) && Seeded(t, start, written, end, r) && r == Done
    ensures forall l :: l in end.links ==> l.0 in end.roles && l.1 in end.perms
    ensures forall d, id, p :: d in t.roles && id in end.roles && p in end.perms && end.roles[id].name == d.name ==>
              ((id, p) in end.links <==> end.perms[p].key in d.keys)
    ensures forall id, p :: id in end.roles && p in end.perms && !DeclaredRole(t, end.roles[id].name) ==>
              ((id, p) in end.links <==> (id, p) in start.links && start.perms[p].key == end.perms[p].key)
  {
    GoalIsStable(t, ViewOf(start));
    forall d, id, p | d in t.roles && id in end.roles && p in end.perms && end.roles[id].name == d.name
      ensures (id, p) in end.links <==> end.perms[p].key in d.keys
    {
      GoalLinkAt(t, end, d, id, p);
    }
    forall id, p | id in end.roles && p in end.perms && !DeclaredRole(t, end.roles[id].name)
      ensures (id, p) in end.links <==> (id, p) in start.links && start.perms[p].key == end.perms[p].key
    {
      OtherRoleLink(t, start, end, id, p);
    }
  }

  predicate DeclaredKey(t: Tables, key: string) {
    exists d :: d in t.perms && d.key == key
  }

  predicate LinkedAt(db: Db, name: string, key: string) {
    exists l :: l in db.links && l.0 in db.roles && l.1 in db.perms && db.roles[l.0].name == name && db.perms[l.1].key == key
  }

  lemma LinkedInView(db: Db, name: string, key: string)
    requires Consistent(db)
    ensures LinkedAt(db, name, key) <==> (name, key) in ViewOf(db).links
  {
    if LinkedAt(db, name, key) {
      var l :| l in db.links && db.roles[l.0].name == name && db.perms[l.1].key == key;
      assert Named(db, l) == (name, key);
    }
  }

  /** A run completes exactly when every role lists declared permissions only, and is
      linked from the start to each that it lists twice. */
  lemma CompletesExactly(t: Tables, start: Db, written: seq<Db>, end: Db, r: Outcome)
    requires Consistent(start) && Seeded(t, start, written, end, r)
    ensures r == Done <==>
            forall d :: d in t.roles ==>
              && (forall k :: k in d.keys ==> DeclaredKey(t, k))
              && forall i, j :: 0 <= i < j < |d.keys| && d.keys[i] == d.keys[j] ==> LinkedAt(start, d.name, d.keys[i])
  {
    forall key
      ensures DeclaredKey(t, key) <==> key in Keys(t)
    {
    }
    forall name, key
      ensures LinkedAt(start, name, key) <==> (name, key) in ViewOf(start).links
    {
      LinkedInView(start, name, key);
    }
    assert forall d :: d in t.roles <==> exists i :: 0 <= i < |t.roles| && t.roles[i] == d;
  }

  lemma WhereStopped(t: Tables, start: Db, written: seq<Db>, end: Db, r: Outcome) returns (n: nat)
    requires Consistent(start) && Seeded(t, start, written, end, r) && r != Done
    ensures Consistent(end) && IdsKept(t, end, Start(t, start)) && StoppedAt(t, ViewOf(start), end, r, n)
  {
    n :| StoppedAt(t, ViewOf(start), end, r, n);
  }

  lemma EarlierRoles(t: Tables, v: View, end: Db, r: Outcome, n: nat)
    requires Consistent(end) && StoppedAt(t, v, end, r, n)
    ensures forall j, id :: 0 <= j < n && id in end.roles && end.roles[id].name == t.roles[j].name ==>
              && end.roles[id].description == t.roles[j].description
              && forall p :: p in end.perms ==> ((id, p) in end.links <==> end.perms[p].key in t.roles[j].keys)
  {
    forall j, id | 0 <= j < n && id in end.roles && end.roles[id].name == t.roles[j].name
      ensures RoleDoneAt(end, t.roles[j], id)
    {
      var q: Id :| RoleDoneAt(end, t.roles[j], q);
      assert q == id;
    }
  }

  lemma LaterRow(t: Tables, start: Db, end: Db, id: Id)
    requires Consistent(start) && Consistent(end) && IdsKept(t, end, Start(t, start))
    requires id in end.roles && end.roles[id] in ViewOf(start).roles
    ensures id in start.roles && end.roles[id] == start.roles[id]
  {
    var q: Id :| q in start.roles && start.roles[q] == end.roles[id];
    RoleIdKept(t, start, end, q);
    assert q == id;
  }

  lemma LaterRoles(t: Tables, start: Db, end: Db, r: Outcome, n: nat)
    requires Consistent(start) && Consistent(end) && IdsKept(t, end, Start(t, start))
    requires StoppedAt(t, ViewOf(start), end, r, n)
    ensures forall j, id :: n < j < |t.roles| && id in end.roles && end.roles[id].name == t.roles[j].name ==>
              id in start.roles && end.roles[id] == start.roles[id]
    ensures forall j, id, p :: n <= j < |t.roles| && id in end.roles && p in end.perms && end.roles[id].name == t.roles[j].name ==>
              ((id, p) in end.links <==> (id, p) in start.links && start.perms[p].key == end.perms[p].key)
  {
    forall j, id | n < j < |t.roles| && id in end.roles && end.roles[id].name == t.roles[j].name
      ensures id in start.roles && end.roles[id] == start.roles[id]
    {
      assert end.roles[id] in ViewOf(end).roles;
      LaterRow(t, start, end, id);
    }
    forall j, id, p | n <= j < |t.roles| && id in end.roles && p in end.perms && end.roles[id].name == t.roles[j].name
      ensures (id, p) in end.links <==> (id, p) in start.links && start.perms[p].key == end.perms[p].key
    {
      LinkInViews(t, start, end, id, p);
    }
  }

  lemma StoppedByWhat(t: Tables, start: Db, end: Db, r: Outcome, n: nat)
    requires Consistent(start) && Consistent(end) && StoppedAt(t, ViewOf(start), end, r, n)
    ensures if r.MissingPermission? then r.key in t.roles[n].keys && !DeclaredKey(t, r.key)
            else exists i, j :: 0 <= i < j < |t.roles[n].keys| && t.roles[n].keys[i] == t.roles[n].keys[j]
                   && !LinkedAt(start, t.roles[n].name, t.roles[n].keys[i])
  {
    if r.DuplicateLink? {
      var d := t.roles[n];
      var i, j :| 0 <= i < j < |d.keys| && d.keys[i] == d.keys[j] && (d.name, d.keys[i]) !in ViewOf(start).links;
      LinkedInView(start, d.name, d.keys[i]);
      assert !LinkedAt(start, t.roles[n].name, t.roles[n].keys[i]);
    }
  }

  /** A run that is stopped leaves, for some n: the roles before the n-th as declared,
      that one and those after it with the links they had, and those after it as they
      were; it was stopped by an undeclared key of the n-th role, or by a key that the
      role lists twice and was not linked to. */
  lemma StoppedLeaves(t: Tables, start: Db, written: seq<Db>, end: Db, r: Outcome) returns (n: nat)
    requires Distinct(t) && Consistent(start) && Seeded(t, start, written, end, r) && r != Done
    ensures n < |t.roles|
    ensures forall j, id :: 0 <= j < n && id in end.roles && end.roles[id].name == t.roles[j].name ==>
              && end.roles[id].description == t.roles[j].description
              && forall p :: p in end.perms ==> ((id, p) in end.links <==> end.perms[p].key in t.roles[j].keys)
    ensures forall j, id :: n < j < |t.roles| && id in end.roles && end.roles[id].name == t.roles[j].name ==>
              id in start.roles && end.roles[id] == start.roles[id]
    ensures forall j, id, p :: n <= j < |t.roles| && id in end.roles && p in end.perms && end.roles[id].name == t.roles[j].name ==>
              ((id, p) in end.links <==> (id, p) in start.links && start.perms[p].key == end.perms[p].key)
    ensures if r.MissingPermission? then r.key in t.roles[n].keys && !DeclaredKey(t, r.key)
            else exists i, j :: 0 <= i < j < |t.roles[n].keys| && t.roles[n].keys[i] == t.roles[n].keys[j]
                   && !LinkedAt(start, t.roles[n].name, t.roles[n].keys[i])
  {
    n := WhereStopped(t, start, written, end, r);
    EarlierRoles(t, ViewOf(start), end, r, n);
    LaterRoles(t, start, end, r, n);
    StoppedByWhat(t, start, end, r, n);
  }

  // ----- The refused insertion

  ghost predicate AllDeclared(t: Tables) {
    forall d, k :: d in t.roles && k in d.keys ==> k in Keys(t)
  }

  /** When every key is declared, a run is stopped by a refused insertion exactly when
      some key listed twice was not linked at the start. */
  lemma RefusedExactly(t: Tables, start: Db, written: seq<Db>, end: Db, r: Outcome)
    requires Consistent(start) && Seeded(t, start, written, end, r) && AllDeclared(t)
    ensures r == DuplicateLink <==> !AllAcceptable(t, ViewOf(start))
  {
    assert forall k :: (exists d :: d in t.roles && k in d.keys) ==> k in Keys(t);
  }

  const EMPTY := Db(map[], map[], {})

  const REPEATED_KEY := Tables([PermDef("k", "", "", "")], [RoleDef("r", "", false, ["k", "k"])])

  /** Any run over these tables on an empty database is stopped so. */
  lemma RepeatedKeyRefused(written: seq<Db>, end: Db, r: Outcome)
    requires Seeded(REPEATED_KEY, EMPTY, written, end, r)
    ensures Distinct(REPEATED_KEY) && Consistent(EMPTY) && r == DuplicateLink
  {
    var t, d := REPEATED_KEY, REPEATED_KEY.roles[0];
    assert t.perms[0] in t.perms && "k" in Keys(t);
    assert d.keys[0] == d.keys[1] && (d.name, "k") !in ViewOf(EMPTY).links;
    assert !Acceptable(t, ViewOf(EMPTY), t.roles[0]);
    RefusedExactly(t, EMPTY, written, end, r);
  }

  // ----- Crashes and reruns

  /** A run from `start` was cut off at `crashed`, before or after some write. */
  ghost predicate CutOff(t: Tables, start: Db, crashed: Db)
    requires Consistent(start)
  {
    crashed == start || exists written, end, r :: Seeded(t, start, written, end, r) && crashed in written
  }

  /** Being on the course of a state that is on the course of another. */
  lemma CourseChain(t: Tables, a: Db, b: Db, c: Db)
    requires Consistent(a) && OnCourse(t, b, Start(t, a)) && OnCourse(t, c, Start(t, b))
    ensures OnCourse(t, c, Start(t, a))
  {
    assert Start(t, a).kept <= Start(t, b).kept;
  }

  lemma {:induction false} CrashesStayOnCourse(t: Tables, states: seq<Db>)
    requires states != [] && forall i :: 0 <= i < |states| ==> Consistent(states[i])
    requires forall i :: 0 <= i < |states| - 1 ==> CutOff(t, states[i], states[i + 1])
    ensures OnCourse(t, states[|states| - 1], Start(t, states[0]))
  {
    var last := |states| - 1;
    if last == 0 {
    } else {
      CrashesStayOnCourse(t, states[..last]);
      assert CutOff(t, states[last - 1], states[last - 1 + 1]);
      CourseChain(t, states[0], states[last - 1], states[last]);
    }
  }

  /** Any number of runs cut off at any moment between writes, then one that is not: it
      completes if the first start was acceptable, and reaches the goal of that start,
      as a run without crashes would have. */
  lemma RerunReachesTheGoal(t: Tables, states: seq<Db>, written: seq<Db>, end: Db, r: Outcome)
    requires states != [] && forall i :: 0 <= i < |states| ==> Consistent(states[i])
    requires forall i :: 0 <= i < |states| - 1 ==> CutOff(t, states[i], states[i + 1])
    requires Seeded(t, states[|states| - 1], written, end, r)
    requires AllAcceptable(t, ViewOf(states[0]))
    ensures r == Done && Consistent(end) && ViewOf(end) == Goal(t, ViewOf(states[0]))
  {
    CrashesStayOnCourse(t, states);
    CourseKeepsAcceptable(t, states[0], states[|states| - 1]);
  }
}
