/** What every admin step keeps: the boot gate, the last Super Admin, the roles users refer to, and the
    permissions custom roles may hold. */
module StaffGate {
  import opened Common
  import opened Staff

  // ---------------------------------------------------------------- permission lists

  predicate Distinct(codes: seq<string>) {
    forall i, j | 0 <= i < j < |codes| :: codes[i] != codes[j]
  }

  predicate Mentioned(codes: seq<string>, trim: string -> string, s: string) {
    exists i | 0 <= i < |codes| :: trim(codes[i]) == s
  }

  lemma MentionedLast(codes: seq<string>, trim: string -> string, s: string)
    requires codes != []
    ensures Mentioned(codes, trim, s)
        <==> trim(codes[|codes| - 1]) == s || Mentioned(codes[..|codes| - 1], trim, s)
  {
    var init := codes[..|codes| - 1];
    if i :| 0 <= i < |init| && trim(init[i]) == s {
      assert trim(codes[i]) == s;
    }
    if i :| 0 <= i < |codes| && trim(codes[i]) == s {
      assert i < |init| ==> trim(init[i]) == s;
    }
  }

  /** `uniqStrings` keeps each non-blank trimmed string once, and nothing else. */
  lemma {:induction false} UniqIs(codes: seq<string>, trim: string -> string)
    ensures Distinct(Uniq(codes, trim))
    ensures forall s :: s in Uniq(codes, trim) <==> s != "" && Mentioned(codes, trim, s)
    decreases |codes|
  {
    if codes != [] {
      var before := Uniq(codes[..|codes| - 1], trim);
      UniqIs(codes[..|codes| - 1], trim);
      forall s ensures s in Uniq(codes, trim) <==> s != "" && Mentioned(codes, trim, s) {
        MentionedLast(codes, trim, s);
      }
      forall i | 0 <= i < |before| ensures before[i] in before {}
    }
  }

  lemma {:induction false} DistinctSize(codes: seq<string>)
    requires Distinct(codes)
    ensures |Elements(codes)| == |codes|
    decreases |codes|
  {
    if codes != [] {
      var n := |codes| - 1;
      DistinctSize(codes[..n]);
      assert Elements(codes) == Elements(codes[..n]) + {codes[n]};
    } else {
      assert Elements(codes) == {};
    }
  }

  lemma AllInRows(permRows: set<string>, codes: seq<string>)
    requires Distinct(codes)
    ensures var perms := set c | c in codes && c in permRows;
            |perms| == |codes| <==> forall c | c in codes :: c in permRows
  {
    DistinctSize(codes);
    var perms := set c | c in codes && c in permRows;
    var all := Elements(codes);
    if forall c | c in codes :: c in permRows {
      assert perms == all;
    } else {
      var c :| c in codes && c !in permRows;
      assert perms <= all - {c};
      SubsetSize(perms, all - {c});
    }
  }

  lemma SubsetSize<T>(a: set<T>, b: set<T>)
    requires a <= b
    ensures |a| <= |b|
  {
    assert b == a + (b - a);
  }

  /** A permission list is accepted exactly when it names `admin.access` and, apart from blanks and
      repetitions, only catalog codes that are stored; then the role gets exactly those codes. */
  lemma PermissionListAccepted(permRows: set<string>, codes: seq<string>, trim: string -> string)
    ensures var list := Uniq(codes, trim);
            var r := LoadPerms(permRows, list);
            && (r.Ok? <==> ACCESS in list && forall c | c in list :: c in Catalog() && c in permRows)
            && (r.Ok? ==> forall c :: c in r.value <==> c in list)
  {
    hide Catalog;
    UniqIs(codes, trim);
    AllInRows(permRows, Uniq(codes, trim));
  }

  lemma LoadedPerms(permRows: set<string>, codes: seq<string>)
    ensures var r := LoadPerms(permRows, codes);
            r.Ok? ==> ACCESS in r.value && forall p | p in r.value :: p in Catalog()
  {
    hide Catalog;
  }

  // ---------------------------------------------------------------- the boot gate

  datatype Act = Act(op: Op, mayAssign: bool)

  function RunActs(db: Db, acts: seq<Act>): Db
    decreases |acts|
  {
    if acts == [] then db else RunActs(Apply(db, acts[0].op, acts[0].mayAssign), acts[1..])
  }

  predicate SystemAdmin(db: Db) {
    ADMIN in db.roles && db.roles[ADMIN]
  }

  lemma OtherHolder(users: map<nat, User>, code: string, user: nat)
    requires |Holders(users, code)| > 1
    ensures exists u :: u in users && users[u].role == code && u != user
  {
    var others := Holders(users, code) - {user};
    SubsetSize(Holders(users, code), others + {user});
    assert |others| > 0;
    var u :| u in others;
    assert u in users && users[u].role == code && u != user;
  }

  lemma ApplyKeepsGate(db: Db, op: Op, mayAssign: bool)
    requires Ready(db) && SystemAdmin(db)
    ensures Ready(Apply(db, op, mayAssign)) && SystemAdmin(Apply(db, op, mayAssign))
  {
    hide Catalog, LoadPerms, CodeShape, UpdatedRow;
    var next := Apply(db, op, mayAssign);
    ReservedDiffer();
    match op
    case CreateRole(code, named, perms) => SameUsers(db, next);
    case UpdateRole(code, named, perms) => SameUsers(db, next);
    case DeleteRole(code) => SameUsers(db, next);
    case UpdateUser(user, emailTaken, role) => UpdateKeepsHolder(db, user, emailTaken, role, mayAssign);
    case SuspendUser(user) => RolesKeepHolder(db, next);
    case UnsuspendUser(user) => RolesKeepHolder(db, next);
  }

  lemma ReservedDiffer()
    ensures ADMIN != OWNER && ADMIN != VIEWER && OWNER != VIEWER && ADMIN != "" && OWNER != "" && VIEWER != ""
  {
    assert ADMIN[0] == 'a' && OWNER[0] == 'o' && VIEWER[0] == 'v';
  }

  lemma SameUsers(db: Db, next: Db)
    requires Ready(db) && next.users == db.users && ADMIN in next.roles
    requires forall p | p in Catalog() :: (ADMIN, p) in next.grants
    ensures Ready(next)
  {
  }

  lemma RolesKeepHolder(db: Db, next: Db)
    requires Ready(db) && next.roles == db.roles && next.grants == db.grants
    requires forall u | u in db.users :: u in next.users && next.users[u].role == db.users[u].role
    ensures Ready(next)
  {
    var u :| u in db.users && db.users[u].role == ADMIN;
    assert u in next.users && next.users[u].role == ADMIN;
  }

  lemma UpdateKeepsHolder(db: Db, user: nat, emailTaken: bool, role: Option<string>, mayAssign: bool)
    requires Ready(db) && SystemAdmin(db)
    ensures var r := UpdatedRow(db, user, emailTaken, role, mayAssign);
            r.Ok? ==> Ready(db.(users := db.users[user := r.value]))
  {
    hide Catalog;
    var r := UpdatedRow(db, user, emailTaken, role, mayAssign);
    if r.Ok? {
      ReservedDiffer();
      if r.value.role == ADMIN {
        assert db.users[user := r.value][user].role == ADMIN;
      } else {
        var v := AnotherHolder(db, user, emailTaken, role, mayAssign);
        assert db.users[user := r.value][v].role == ADMIN;
      }
    }
  }

  /** Who takes the role away from a holder leaves another one. */
  lemma AnotherHolder(db: Db, user: nat, emailTaken: bool, role: Option<string>, mayAssign: bool) returns (v: nat)
    requires Ready(db) && SystemAdmin(db)
    requires var r := UpdatedRow(db, user, emailTaken, role, mayAssign); r.Ok? && r.value.role != ADMIN
    ensures v in db.users && db.users[v].role == ADMIN && v != user
  {
    hide Catalog;
    ReservedDiffer();
    if db.users[user].role == ADMIN {
      OtherHolder(db.users, ADMIN, user);
      v :| v in db.users && db.users[v].role == ADMIN && v != user;
    } else {
      v :| v in db.users && db.users[v].role == ADMIN;
    }
  }

  lemma {:induction false} ActsKeepGate(db: Db, acts: seq<Act>)
    requires Ready(db) && SystemAdmin(db)
    ensures Ready(RunActs(db, acts)) && SystemAdmin(RunActs(db, acts))
    decreases |acts|
  {
    hide Ready, SystemAdmin, Apply;
    if acts != [] {
      ApplyKeepsGate(db, acts[0].op, acts[0].mayAssign);
      ActsKeepGate(Apply(db, acts[0].op, acts[0].mayAssign), acts[1..]);
    }
  }

  /** Without the system flag nothing protects the last holder: demote them one by one. */
  lemma {:induction false} DemoteAll(db: Db) returns (acts: seq<Act>)
    requires ADMIN in db.roles && !db.roles[ADMIN]
    ensures !Ready(RunActs(db, acts))
    decreases |Holders(db.users, ADMIN)|
  {
    hide Catalog;
    ReservedDiffer();
    acts := [];
    if u :| u in db.users && db.users[u].role == ADMIN {
      var act := Act(UpdateUser(u, false, Some(OWNER)), true);
      var next := Apply(db, act.op, true);
      assert u in Holders(db.users, ADMIN);
      assert Holders(next.users, ADMIN) == Holders(db.users, ADMIN) - {u};
      var rest := DemoteAll(next);
      acts := [act] + rest;
      assert acts[1..] == rest;
    }
  }

  /** A database that passes the boot gate passes it after every sequence of admin steps if and only if
      its Super Admin row is marked as a system role, which is what seeding does and the gate does not ask. */
  lemma GateKeptIff(db: Db)
    requires Ready(db)
    ensures (forall acts :: Ready(RunActs(db, acts))) <==> SystemAdmin(db)
  {
    if SystemAdmin(db) {
      forall acts ensures Ready(RunActs(db, acts)) {
        ActsKeepGate(db, acts);
      }
    } else {
      var acts := DemoteAll(db);
      assert !Ready(RunActs(db, acts));
    }
  }

  /** Seeding makes any database ready in which somebody has the admin role, with the flag set. */
  lemma SeedMakesReady(db: Db)
    ensures SystemAdmin(Seed(db))
    ensures Ready(Seed(db)) <==> exists u :: u in db.users && db.users[u].role == ADMIN
  {
    hide Catalog;
  }

  // ---------------------------------------------------------------- the whole invariant

  predicate UsersOk(db: Db) {
    forall u | u in db.users :: db.users[u].role == OWNER || db.users[u].role == VIEWER || db.users[u].role in db.roles
  }

  predicate CustomOk(db: Db) {
    forall code | code in db.roles && !db.roles[code] ::
      (code, ACCESS) in db.grants && forall g | g in db.grants && g.0 == code :: g.1 in Catalog()
  }

  predicate NamesOk(db: Db) {
    && OWNER !in db.roles && VIEWER !in db.roles
    && forall code | code in db.roles && db.roles[code] :: code == ADMIN
  }

  predicate Good(db: Db) {
    Ready(db) && SystemAdmin(db) && UsersOk(db) && CustomOk(db) && NamesOk(db)
  }

  lemma ReplacedKeepsCustom(db: Db, code: string, perms: set<string>, roles: map<string, bool>)
    requires CustomOk(db) && ACCESS in perms && forall p | p in perms :: p in Catalog()
    requires forall c | c in roles && c != code :: c in db.roles && db.roles[c] == roles[c]
    ensures CustomOk(db.(roles := roles, grants := Replaced(db.grants, code, perms)))
  {
    hide Catalog;
  }

  lemma CreateRoleKeeps(db: Db, code: string, named: bool, perms: seq<string>)
    requires UsersOk(db) && CustomOk(db) && NamesOk(db)
    ensures var r := TryCreateRole(db, code, named, perms);
            r.Ok? ==> UsersOk(r.value) && CustomOk(r.value) && NamesOk(r.value)
  {
    hide Catalog, LoadPerms, CodeShape;
    LoadedPerms(db.permRows, perms);
    var loaded := LoadPerms(db.permRows, perms);
    if loaded.Ok? {
      ReplacedKeepsCustom(db, code, loaded.value, db.roles[code := false]);
    }
  }

  lemma UpdateRoleKeeps(db: Db, code: string, named: bool, perms: seq<string>)
    requires UsersOk(db) && CustomOk(db) && NamesOk(db)
    ensures var r := TryUpdateRole(db, code, named, perms);
            r.Ok? ==> UsersOk(r.value) && CustomOk(r.value) && NamesOk(r.value)
  {
    hide Catalog, LoadPerms;
    LoadedPerms(db.permRows, perms);
    var loaded := LoadPerms(db.permRows, perms);
    if loaded.Ok? {
      ReplacedKeepsCustom(db, code, loaded.value, db.roles);
    }
  }

  lemma DeleteRoleKeeps(db: Db, code: string)
    requires UsersOk(db) && CustomOk(db) && NamesOk(db)
    ensures var r := TryDeleteRole(db, code);
            r.Ok? ==> UsersOk(r.value) && CustomOk(r.value) && NamesOk(r.value)
  {
    hide Catalog;
    SomeHolder(db.users, code);
  }

  lemma ApplyKeepsTables(db: Db, op: Op, mayAssign: bool)
    requires UsersOk(db) && CustomOk(db) && NamesOk(db)
    ensures var next := Apply(db, op, mayAssign);
            UsersOk(next) && CustomOk(next) && NamesOk(next)
  {
    hide Catalog, TryCreateRole, TryUpdateRole, TryDeleteRole;
    match op
    case CreateRole(code, named, perms) => CreateRoleKeeps(db, code, named, perms);
    case UpdateRole(code, named, perms) => UpdateRoleKeeps(db, code, named, perms);
    case DeleteRole(code) => DeleteRoleKeeps(db, code);
    case UpdateUser(user, emailTaken, role) =>
    case SuspendUser(user) =>
    case UnsuspendUser(user) =>
  }

  lemma ApplyKeepsGood(db: Db, op: Op, mayAssign: bool)
    requires Good(db)
    ensures Good(Apply(db, op, mayAssign))
  {
    hide Apply, Ready, SystemAdmin, UsersOk, CustomOk, NamesOk;
    ApplyKeepsGate(db, op, mayAssign);
    ApplyKeepsTables(db, op, mayAssign);
  }

  /** A first boot establishes it: no role rows but perhaps Super Admin's, customers and at least one admin. */
  lemma SeedMakesGood(db: Db)
    requires forall code | code in db.roles :: code == ADMIN
    requires forall u | u in db.users ::
               db.users[u].role == OWNER || db.users[u].role == VIEWER || db.users[u].role == ADMIN
    requires exists u :: u in db.users && db.users[u].role == ADMIN
    ensures Good(Seed(db))
  {
    hide Catalog;
    ReservedDiffer();
    SeedMakesReady(db);
  }

  // ---------------------------------------------------------------- a Super Admin who can act

  /** No Super Admin is suspended. */
  predicate AllAwake(db: Db) {
    forall u | u in db.users && db.users[u].role == ADMIN :: !db.users[u].disabled
  }

  /** The step makes a suspended user Super Admin. */
  predicate PromotesSuspended(db: Db, op: Op, mayAssign: bool) {
    && op.UpdateUser? && op.role == Some(ADMIN) && Try(db, op, mayAssign).Ok?
    && db.users[op.user].disabled
  }

  /** Every Super Admin stays able to act, except exactly when a suspended user is made one. */
  lemma AwakeKeptIff(db: Db, op: Op, mayAssign: bool)
    requires SystemAdmin(db) && AllAwake(db)
    ensures AllAwake(Apply(db, op, mayAssign)) <==> !PromotesSuspended(db, op, mayAssign)
  {
    hide Catalog, LoadPerms, CodeShape;
    ReservedDiffer();
    var next := Apply(db, op, mayAssign);
    if op.UpdateUser? && PromotesSuspended(db, op, mayAssign) {
      assert next.users[op.user].role == ADMIN;
    }
  }
}
