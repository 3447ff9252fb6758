/** What each staff handler brings about, when it succeeds, and which refusal it gives otherwise; and what lets
    a user in. */
module StaffEffects {
  import opened Common
  import opened Staff
  import opened StaffGate
  import opened StaffRuns
  import opened StaffSuspension

  // ---------------------------------------------------------------- handlers on users

  /** Nothing but the user's own row may differ. */
  predicate OnlyRow(db: Db, next: Db, user: nat) {
    && next == db.(users := next.users) && next.users.Keys == db.users.Keys
    && forall u | u in db.users && u != user :: next.users[u] == db.users[u]
  }

  /** Under the invariant the system role is Super Admin's. */
  lemma SystemRoleIsAdmin(db: Db, code: string)
    requires NamesOk(db) && SystemAdmin(db)
    ensures IsSystem(db.roles, code) <==> code == ADMIN
  {
    ReservedDiffer();
  }

  /** A suspension succeeds exactly on an enabled user without a system role, who is then suspended and
      otherwise as before; nobody else changes. */
  lemma SuspendSuspends(db: Db, user: nat, mayAssign: bool)
    ensures var r := Try(db, SuspendUser(user), mayAssign);
            && (r.Ok? <==> Enabled(db, user) && !IsSystem(db.roles, db.users[user].role))
            && (r == Err(NotFound) <==> user !in db.users)
            && (r == Err(CannotSuspendAdmin) <==> user in db.users && IsSystem(db.roles, db.users[user].role))
            && (r.Ok? || r.error in {NotFound, CannotSuspendAdmin, AlreadySuspended})
            && (r.Ok? ==> Suspended(r.value, user) && r.value.users[user].role == db.users[user].role
                          && OnlyRow(db, r.value, user))
  {
  }

  lemma UnsuspendEnables(db: Db, user: nat, mayAssign: bool)
    ensures var r := Try(db, UnsuspendUser(user), mayAssign);
            && (r.Ok? <==> Suspended(db, user))
            && (r == Err(NotFound) <==> user !in db.users)
            && (r == Err(NotSuspended) <==> Enabled(db, user))
            && (r.Ok? ==> Enabled(r.value, user) && r.value.users[user].role == db.users[user].role
                          && OnlyRow(db, r.value, user))
  {
  }

  /** The only holder of a system role. */
  predicate LastOfSystem(db: Db, user: nat) {
    user in db.users && IsSystem(db.roles, db.users[user].role) && Holders(db.users, db.users[user].role) == {user}
  }

  predicate RoleExists(db: Db, code: string) {
    code != VIEWER && (code == OWNER || code in db.roles)
  }

  predicate Moves(db: Db, user: nat, role: Option<string>) {
    user in db.users && role.Some? && role.value != db.users[user].role
  }

  lemma OneHolder(users: map<nat, User>, user: nat)
    requires user in users
    ensures |Holders(users, users[user].role)| <= 1 <==> Holders(users, users[user].role) == {user}
  {
    var all := Holders(users, users[user].role);
    assert user in all;
    if |all| <= 1 {
      assert |all - {user}| == 0;
    }
  }

  /** A role change succeeds exactly for an admin who may assign roles, to a role that exists, and not from the
      only holder of a system role; the user then has that role and is as suspended as before; nobody
      else changes. */
  lemma UpdateGivesRole(db: Db, user: nat, emailTaken: bool, role: Option<string>, mayAssign: bool)
    ensures var r := Try(db, UpdateUser(user, emailTaken, role), mayAssign);
            && (r.Ok? <==> user in db.users && !emailTaken
                           && (Moves(db, user, role) ==>
                                 mayAssign && RoleExists(db, role.value) && !LastOfSystem(db, user)))
            && (r.Ok? ==> r.value.users[user].disabled == db.users[user].disabled && OnlyRow(db, r.value, user)
                          && r.value.users[user].role == (if role.Some? then role.value else db.users[user].role))
            && (r == Err(NotFound) <==> user !in db.users)
            && (r == Err(EmailTaken) <==> user in db.users && emailTaken)
            && (r == Err(Forbidden) <==> Moves(db, user, role) && !emailTaken && !mayAssign)
            && (r == Err(InvalidRole) <==>
                  Moves(db, user, role) && !emailTaken && mayAssign && !RoleExists(db, role.value))
            && (r == Err(LastSuperAdmin) <==>
                  && Moves(db, user, role) && !emailTaken && mayAssign && RoleExists(db, role.value)
                  && LastOfSystem(db, user))
  {
    hide IsSystem, Holders;
    if user in db.users { OneHolder(db.users, user); }
  }

  // ---------------------------------------------------------------- handlers on roles

  predicate Acceptable(db: Db, list: seq<string>) {
    ACCESS in list && forall c | c in list :: c in Catalog() && c in db.permRows
  }

  lemma ListIff(db: Db, list: seq<string>)
    requires Distinct(list)
    ensures var r := LoadPerms(db.permRows, list);
            && (r.Ok? <==> Acceptable(db, list)) && (r.Ok? ==> r.value == Elements(list))
            && (r == Err(UnknownPermission) <==> exists c | c in list :: c !in Catalog() || c !in db.permRows)
            && (r.Ok? || r.error in {UnknownPermission, NeedAdminAccess})
  {
    hide Catalog;
    AllInRows(db.permRows, list);
    var perms := set c | c in list && c in db.permRows;
    if forall c | c in list :: c in db.permRows { assert perms == Elements(list); }
  }

  lemma ReplacedPerms(db: Db, code: string, perms: set<string>, roles: map<string, bool>, role: string)
    requires role != code ==> (role in roles <==> role in db.roles)
    ensures var next := db.(roles := roles, grants := Replaced(db.grants, code, perms));
            PermsOf(next, role) == if role != code then PermsOf(db, role) else if code in roles then perms else {}
  {
    var next := db.(roles := roles, grants := Replaced(db.grants, code, perms));
    forall p ensures p in PermsOf(next, role)
      <==> p in (if role != code then PermsOf(db, role) else if code in roles then perms else {})
    {
      GrantedIs(next, role, p);
      GrantedIs(db, role, p);
      assert (role, p) in next.grants <==> if role == code then p in perms else (role, p) in db.grants;
    }
  }

  /** Every other role keeps its row and its permissions. */
  ghost predicate OtherRoles(db: Db, next: Db, code: string) {
    && next == db.(roles := next.roles, grants := next.grants)
    && (forall c | c != code :: (c in next.roles <==> c in db.roles) && PermsOf(next, c) == PermsOf(db, c))
    && forall c | c in db.roles && c != code :: next.roles[c] == db.roles[c]
  }

  lemma RolesReplaced(db: Db, code: string, perms: set<string>, roles: map<string, bool>)
    requires forall c | c != code :: c in roles <==> c in db.roles
    requires forall c | c in db.roles && c != code :: roles[c] == db.roles[c]
    ensures var next := db.(roles := roles, grants := Replaced(db.grants, code, perms));
            OtherRoles(db, next, code) && PermsOf(next, code) == if code in roles then perms else {}
  {
    var next := db.(roles := roles, grants := Replaced(db.grants, code, perms));
    forall c | c != code ensures PermsOf(next, c) == PermsOf(db, c) {
      ReplacedPerms(db, code, perms, roles, c);
    }
    ReplacedPerms(db, code, perms, roles, code);
  }

  /** A role is created exactly under a free code of the right shape, with a name and an acceptable list; it is
      then a custom role with exactly the listed permissions. */
  lemma CreateRoleGrants(db: Db, code: string, named: bool, raw: seq<string>, trim: string -> string, mayAssign: bool)
    ensures var list := Uniq(raw, trim);
            var r := Try(db, CreateRole(code, named, list), mayAssign);
            && (r.Ok? <==> named && CodeShape(code) && !Reserved(code) && Acceptable(db, list) && code !in db.roles)
            && (r.Ok? ==> code in r.value.roles && !r.value.roles[code] && PermsOf(r.value, code) == Elements(list)
                          && OtherRoles(db, r.value, code))
            && (r == Err(ValidationError) <==> code == "" || !named)
            && (r == Err(InvalidCode) <==> code != "" && named && !CodeShape(code))
            && (r == Err(ReservedCode) <==> named && CodeShape(code) && Reserved(code))
            && (r == Err(CodeTaken) <==>
                  named && CodeShape(code) && !Reserved(code) && Acceptable(db, list) && code in db.roles)
  {
    hide LoadPerms, Acceptable, Replaced, Reserved, PermsOf, Uniq, OtherRoles;
    var list := Uniq(raw, trim);
    UniqIs(raw, trim);
    ListIff(db, list);
    if code !in db.roles { RolesReplaced(db, code, Elements(list), db.roles[code := false]); }
  }

  /** System roles and Super Admin cannot be changed. */
  predicate Frozen(db: Db, code: string) {
    code in db.roles && (db.roles[code] || code == ADMIN)
  }

  /** An update replaces the permissions of a custom role: it has exactly the listed ones, old ones are gone. */
  lemma UpdateRoleReplaces(db: Db, code: string, named: bool, raw: seq<string>, trim: string -> string, mayAssign: bool)
    ensures var list := Uniq(raw, trim);
            var r := Try(db, UpdateRole(code, named, list), mayAssign);
            && (r.Ok? <==> code in db.roles && !Frozen(db, code) && named && Acceptable(db, list))
            && (r.Ok? ==> r.value.roles == db.roles && PermsOf(r.value, code) == Elements(list)
                          && OtherRoles(db, r.value, code))
            && (r == Err(NotFound) <==> code !in db.roles)
            && (r == Err(SystemRole) <==> Frozen(db, code))
            && (r == Err(ValidationError) <==> code in db.roles && !Frozen(db, code) && !named)
  {
    hide LoadPerms, Acceptable, Replaced, PermsOf, Uniq, OtherRoles;
    var list := Uniq(raw, trim);
    UniqIs(raw, trim);
    ListIff(db, list);
    RolesReplaced(db, code, Elements(list), db.roles);
  }

  /** A role is deleted exactly when it is a custom role that nobody has; its permissions go with it. */
  lemma DeleteRoleRemoves(db: Db, code: string, mayAssign: bool)
    ensures var r := Try(db, DeleteRole(code), mayAssign);
            && (r.Ok? <==> code in db.roles && !Frozen(db, code) && Unused(db, code))
            && (r.Ok? ==> code !in r.value.roles && PermsOf(r.value, code) == {} && OtherRoles(db, r.value, code)
                          && forall g | g in r.value.grants :: g.0 != code)
            && (r == Err(NotFound) <==> code !in db.roles)
            && (r == Err(SystemRole) <==> Frozen(db, code))
            && (r == Err(RoleInUse) <==> code in db.roles && !Frozen(db, code) && !Unused(db, code))
  {
    hide PermsOf, OtherRoles, Holders;
    SomeHolder(db.users, code);
    RolesReplaced(db, code, {}, db.roles - {code});
  }

  predicate Unused(db: Db, code: string) {
    forall u | u in db.users :: db.users[u].role != code
  }

  // ---------------------------------------------------------------- from the request to the save

  /** Every admin request that has entered, undisturbed, does what its handler does in one go: the checks, and for
      a handler on a user the save, are together `Apply`. */
  lemma UndisturbedIsApply(db: Db, k: nat)
    requires k < |db.entries| && db.entries[k].waiting
    ensures var e := db.entries[k];
            var next := Apply(db, e.op, e.mayAssign).(entries := db.entries[k := e.(waiting := false)]);
            && (OnUser(e.op) && Try(db, e.op, e.mayAssign).Ok? ==> Run(db, [Handle(k)] + [Save(|db.drafts|)]) == next)
            && (!OnUser(e.op) || Try(db, e.op, e.mayAssign).Err? ==> Run(db, [Handle(k)]) == next)
  {
    hide Run, Try, Apply, RowFor;
    RunOne(db, Handle(k));
    var e := db.entries[k];
    HandlesApply(db, e.op, e.mayAssign);
    var checked := Step(db, Handle(k));
    if OnUser(e.op) && RowFor(db, e.op, e.mayAssign).Ok? {
      RunPlus(db, [Handle(k)], [Save(|db.drafts|)]);
      RowsUserExists(db, e.op, e.mayAssign);
      SaveStep(checked, |db.drafts|);
      assert checked.drafts[..|db.drafts|] + checked.drafts[|db.drafts| + 1..] == db.drafts;
    }
  }

  lemma RowsUserExists(db: Db, op: Op, mayAssign: bool)
    requires OnUser(op) && RowFor(db, op, mayAssign).Ok?
    ensures op.user in db.users
  {
  }

  lemma HandlesApply(db: Db, op: Op, mayAssign: bool)
    ensures OnUser(op) ==>
              var r := RowFor(db, op, mayAssign);
              && (Try(db, op, mayAssign).Ok? <==> r.Ok?)
              && Apply(db, op, mayAssign) == (if r.Ok? then db.(users := db.users[op.user := r.value]) else db)
    ensures Try(db, op, mayAssign).Err? ==> Apply(db, op, mayAssign) == db
    ensures Apply(db, op, mayAssign).entries == db.entries
  {
    hide RowFor, LoadPerms, CodeShape;
  }

  /** A user's own update, undisturbed, leaves role and suspension as they are. */
  lemma OwnUpdateKeepsRow(db: Db, user: nat)
    ensures user in db.users ==> Run(db, [LoadMe(user)] + [Save(|db.drafts|)]) == db
  {
    if user in db.users {
      LoadStep(db, user);
      var loaded := Run(db, [LoadMe(user)]);
      RunPlus(db, [LoadMe(user)], [Save(|db.drafts|)]);
      SaveLast(loaded, user, db);
    }
  }

  lemma SaveLast(loaded: Db, user: nat, db: Db)
    requires user in db.users && loaded == db.(drafts := db.drafts + [Draft(user, db.users[user])])
    ensures Run(loaded, [Save(|db.drafts|)]) == db
  {
    SaveStep(loaded, |db.drafts|);
    assert loaded.drafts[..|db.drafts|] + loaded.drafts[|db.drafts| + 1..] == db.drafts;
    assert db.users[user := db.users[user]] == db.users;
  }

  /** So over the steps of the system: a suspension that entered, undisturbed, ends with the user suspended
      exactly when the user was enabled and holds no system role; an unsuspend ends with the user enabled. */
  lemma SuspensionTakesEffect(db: Db, k: nat)
    requires k < |db.entries| && db.entries[k].waiting && OnUser(db.entries[k].op)
    ensures var user := db.entries[k].op.user;
            var end := Run(db, [Handle(k)] + [Save(|db.drafts|)]);
            && (db.entries[k].op.SuspendUser? && Enabled(db, user) && !IsSystem(db.roles, db.users[user].role) ==>
                  Suspended(end, user) && OnlyRow(db.(entries := end.entries), end, user))
            && (db.entries[k].op.UnsuspendUser? && Suspended(db, user) ==>
                  Enabled(end, user) && OnlyRow(db.(entries := end.entries), end, user))
  {
    hide Run, IsSystem, UpdatedRow;
    var op, mayAssign := db.entries[k].op, db.entries[k].mayAssign;
    UndisturbedIsApply(db, k);
    if op.SuspendUser? { SuspendSuspends(db, op.user, mayAssign); }
    if op.UnsuspendUser? { UnsuspendEnables(db, op.user, mayAssign); }
  }

  // ---------------------------------------------------------------- who gets in

  /** The permission that guards a handler, as the routes name it. */
  predicate Guards(op: Op, code: string) {
    if op.SuspendUser? || op.UnsuspendUser? then code == "users.suspend"
    else if op.UpdateUser? then code == "users.update"
    else code == "roles.write"
  }

  predicate Granted(db: Db, role: string, code: string) {
    role in db.roles && (role, code) in db.grants
  }

  /** A request reaches its handler exactly with an own token of an enabled user whose role has a row, admin.access
      and the permission of the handler; it takes along whether the role may assign roles. */
  lemma EnterIff(db: Db, jwt: Jwt, op: Op, id: string, code: string)
    requires Guards(op, code)
    ensures var next := Step(db, Enter(jwt, op, id));
            if jwt.subject != 0 && Enabled(db, jwt.subject) && !jwt.impersonating
               && Granted(db, db.users[jwt.subject].role, ACCESS) && Granted(db, db.users[jwt.subject].role, code)
            then next == db.(entries := db.entries +
                   [Entry(jwt, op, Granted(db, db.users[jwt.subject].role, "users.role.assign"), true)])
            else next == db
  {
    hide IsStopRequest, RouteOf, PermsOf;
    AdminRoutesAreNotStop(op, id);
    if jwt.subject in db.users {
      GrantedIs(db, db.users[jwt.subject].role, ACCESS);
      GrantedIs(db, db.users[jwt.subject].role, code);
      GrantedIs(db, db.users[jwt.subject].role, ROLE_ASSIGN);
    }
  }

  /** A request to stop an impersonation passes whoever sends it and whoever is suspended. */
  lemma StopAlwaysPasses(db: Db, jwt: Jwt, id: string)
    ensures Passes(db, jwt, Route(true, "/api/admin/users/" + id + "/stop-impersonation"))
  {
    var path := "/api/admin/users/" + id + "/stop-impersonation";
    assert path[4..] == "/admin/users/" + id + "/stop-impersonation";
    assert OccursAt(path, "/admin/users/", 4);
    var n := |"/api/admin/users/" + id|;
    assert path[n..] == "/stop-impersonation" && |path| - |"/stop-impersonation"| == n;
  }

  /** Any other request passes exactly when its user is there and enabled, and under an impersonation the admin
      behind it too. */
  lemma PassesIff(db: Db, jwt: Jwt, route: Route)
    requires !IsStopRequest(route)
    ensures !jwt.impersonating ==> (Passes(db, jwt, route) <==> jwt.subject != 0 && Enabled(db, jwt.subject))
    ensures jwt.impersonating ==>
              (Passes(db, jwt, route) <==>
                 jwt.subject != 0 && jwt.impersonator != 0 && Enabled(db, jwt.subject) && Enabled(db, jwt.impersonator))
  {
  }

  // ---------------------------------------------------------------- tokens

  lemma IssueStep(db: Db, a: nat, user: nat)
    requires a < |db.auths| && db.auths[a] == Auth(user, Issuing)
    ensures var next := Run(db, [IssueTokens(a)]);
            next == db.(auths := db.auths[a := Auth(user, Ended)], tokens := db.tokens[db.nextToken := user],
                        nextToken := db.nextToken + 1)
  {
    RunOne(db, IssueTokens(a));
  }

  /** A login, undisturbed, gives its user a token exactly with the password and an enabled account; else it
      changes nothing. */
  lemma LoginIssues(db: Db, user: nat, passwordOk: bool)
    ensures var end := Run(db, [Login(user, passwordOk)] + [IssueTokens(|db.auths|)]);
            if passwordOk && Enabled(db, user) then
              end == db.(auths := db.auths + [Auth(user, Ended)], tokens := db.tokens[db.nextToken := user],
                         nextToken := db.nextToken + 1)
            else end == db
  {
    RunPlus(db, [Login(user, passwordOk)], [IssueTokens(|db.auths|)]);
    RunOne(db, Login(user, passwordOk));
    if passwordOk && Enabled(db, user) {
      IssueStep(Step(db, Login(user, passwordOk)), |db.auths|, user);
    } else {
      RunOne(db, IssueTokens(|db.auths|));
    }
  }

  /** A registration, undisturbed, adds an enabled owner with a token. */
  lemma RegisterIssues(db: Db, user: nat)
    requires user !in db.users
    ensures Run(db, [Register(user)] + [IssueTokens(|db.auths|)])
         == db.(users := db.users[user := User(OWNER, false)], auths := db.auths + [Auth(user, Ended)],
                tokens := db.tokens[db.nextToken := user], nextToken := db.nextToken + 1)
  {
    RunPlus(db, [Register(user)], [IssueTokens(|db.auths|)]);
    RunOne(db, Register(user));
    IssueStep(Step(db, Register(user)), |db.auths|, user);
  }

  /** The refresh handler's statements, one after the other. */
  function Refresh(token: nat, a: nat): seq<Event> {
    [FindToken(token)] + ([CheckUser(a)] + ([DeleteToken(a)] + [IssueTokens(a)]))
  }

  lemma RefreshSteps(db: Db, token: nat, a: nat)
    ensures Run(db, Refresh(token, a)) == StepIssue(StepDelete(StepCheck(StepFind(db, token), a), a), a)
  {
    hide Run, StepFind, StepCheck, StepDelete, StepIssue;
    var found := StepFind(db, token);
    var checked := StepCheck(found, a);
    RunPlus(db, [FindToken(token)], [CheckUser(a)] + ([DeleteToken(a)] + [IssueTokens(a)]));
    RunPlus(found, [CheckUser(a)], [DeleteToken(a)] + [IssueTokens(a)]);
    RunPlus(checked, [DeleteToken(a)], [IssueTokens(a)]);
    RunOne(db, FindToken(token));
    RunOne(found, CheckUser(a));
    RunOne(checked, DeleteToken(a));
    RunOne(StepDelete(checked, a), IssueTokens(a));
  }

  /** The refresh that was found. */
  function Looked(db: Db, user: nat, phase: AuthPhase): Db {
    db.(auths := db.auths + [Auth(user, phase)])
  }

  lemma MoveLast(auths: seq<Auth>, user: nat, was: AuthPhase, phase: AuthPhase)
    ensures Move(auths + [Auth(user, was)], |auths|, phase) == auths + [Auth(user, phase)]
  {
  }

  /** A refresh, undisturbed: an enabled user's token is replaced by a new one of the same user; a disabled
      user's is used up and nothing issued; one without a user is left alone; an unknown one changes nothing. */
  lemma RefreshReplaces(db: Db, token: nat)
    ensures var end := Run(db, Refresh(token, |db.auths|));
            if token !in db.tokens then end == db
            else
              var user := db.tokens[token];
              var over := Looked(db, user, Ended);
              end == (if Enabled(db, user) then
                        over.(tokens := (db.tokens - {token})[db.nextToken := user], nextToken := db.nextToken + 1)
                      else if Suspended(db, user) then over.(tokens := db.tokens - {token})
                      else over)
  {
    hide Run, Move;
    var a := |db.auths|;
    RefreshSteps(db, token, a);
    if token in db.tokens {
      var user := db.tokens[token];
      MoveLast(db.auths, user, Found(token), Ended);
      MoveLast(db.auths, user, Found(token), Cleared(token));
      MoveLast(db.auths, user, Cleared(token), Issuing);
      MoveLast(db.auths, user, Issuing, Ended);
      if Enabled(db, user) { RotateFound(db, token, user); }
    }
  }

  lemma RotateFound(db: Db, token: nat, user: nat)
    requires token in db.tokens && db.tokens[token] == user && Enabled(db, user)
    ensures StepCheck(Looked(db, user, Found(token)), |db.auths|) == Looked(db, user, Cleared(token))
    ensures StepDelete(Looked(db, user, Cleared(token)), |db.auths|)
         == Looked(db, user, Issuing).(tokens := db.tokens - {token})
  {
  }

  // ---------------------------------------------------------------- seeding

  /** Seeding again changes nothing, and seeding leaves users and custom roles alone. */
  lemma SeedOnce(db: Db, code: string)
    ensures Seed(Seed(db)) == Seed(db)
    ensures Seed(db).users == db.users && Seed(db).roles == db.roles[ADMIN := true]
    ensures code != ADMIN ==> PermsOf(Seed(db), code) == PermsOf(db, code)
    ensures Elements(Catalog()) <= PermsOf(Seed(db), ADMIN)
  {
    hide Catalog;
    forall p ensures code != ADMIN ==> (p in PermsOf(Seed(db), code) <==> p in PermsOf(db, code)) {
      GrantedIs(Seed(db), code, p);
      GrantedIs(db, code, p);
    }
    forall p | p in Elements(Catalog()) ensures p in PermsOf(Seed(db), ADMIN) {
      GrantedIs(Seed(db), ADMIN, p);
    }
  }

  // ---------------------------------------------------------------- what a Super Admin and a role code are

  /** An enabled Super Admin gets every admin request through, and may assign roles. */
  lemma BossEnters(db: Db, boss: nat, op: Op, id: string)
    requires Ready(db) && Boss(db, boss)
    ensures Step(db, Enter(Jwt(boss, false, 0), op, id))
         == db.(entries := db.entries + [Entry(Jwt(boss, false, 0), op, true, true)])
  {
    var all := Catalog();
    assert all[0] == ACCESS && all[2] == USERS_UPDATE && all[3] == ROLE_ASSIGN && all[7] == SUSPEND
      && all[20] == ROLES_WRITE;
    hide Catalog;
    EnterIff(db, Jwt(boss, false, 0), op, id, Needed(op));
  }

  predicate LowerLetter(c: char) {
    'a' <= c <= 'z'
  }

  /** A role code is a lower-case letter and 1 to 40 more of letters, digits and underscores. */
  lemma CodeShapeIs(c: char, rest: string)
    ensures CodeShape([c] + rest)
        <==> LowerLetter(c) && 1 <= |rest| <= 40
             && forall i | 0 <= i < |rest| :: LowerLetter(rest[i]) || '0' <= rest[i] <= '9' || rest[i] == '_'
    ensures !CodeShape("")
  {
    var code := [c] + rest;
    assert code[0] == c;
    forall i | 0 <= i < |rest| ensures rest[i] == code[i + 1] {}
    assert forall i | 0 < i < |code| :: code[i] == rest[i - 1];
  }
}
