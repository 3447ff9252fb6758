/** Staff roles, permissions and suspension: the tables, the admin handlers that change them, and the
    middleware that decides which request reaches a handler. Rows are keyed by their unique keys: users by
    id, roles by their immutable code. */
module Staff {
  import opened Common

  const ADMIN := "admin"
  const OWNER := "owner"
  const VIEWER := "viewer"

  const ACCESS := "admin.access"
  const USERS_UPDATE := "users.update"
  const ROLE_ASSIGN := "users.role.assign"
  const SUSPEND := "users.suspend"
  const IMPERSONATE := "users.impersonate"
  const ROLES_WRITE := "roles.write"

  /** `PermissionCatalog`. */
  function Catalog(): seq<string> {
    [ACCESS, "users.read", USERS_UPDATE, ROLE_ASSIGN, "users.export", "users.activity.read", "users.password.reset",
     SUSPEND, IMPERSONATE, "plans.read", "plans.write", "stats.overview.read", "stats.revenue.read", "projects.read",
     "platform.seo.read", "platform.social.read", "platform.health.read", "integrations.read", "audit.read",
     "roles.read", ROLES_WRITE]
  }

  datatype User = User(role: string, disabled: bool)

  /** Where a request for tokens stands: its refresh token was found, its user passed the test for
      disabled accounts, the tokens are to be issued, or it has ended. */
  datatype AuthPhase = Found(token: nat) | Cleared(token: nat) | Issuing | Ended

  datatype Auth = Auth(user: nat, phase: AuthPhase)

  datatype Jwt = Jwt(subject: nat, impersonating: bool, impersonator: nat)

  /** What an admin asks for. Permission lists are given after `uniqStrings`. */
  datatype Op =
    | CreateRole(code: string, named: bool, perms: seq<string>)
    | UpdateRole(code: string, named: bool, perms: seq<string>)
    | DeleteRole(code: string)
    | UpdateUser(user: nat, emailTaken: bool, role: Option<string>)
    | SuspendUser(user: nat)
    | UnsuspendUser(user: nat)

  /** An admin request behind the middleware, with what it loaded there: may it assign roles? */
  datatype Entry = Entry(jwt: Jwt, op: Op, mayAssign: bool, waiting: bool)

  /** A whole user row that a handler is about to save: as it was loaded, with the handler's change. A
      profile update changes neither the role nor the suspension. */
  datatype Draft = Draft(user: nat, row: User)

  /** `roles` says of each role code whether the row is a system role; `grants` is the join of roles and
      permissions; `tokens` maps a live refresh token to its user. `auths`, `entries` and
      `drafts` belong to requests under way, in the order they came. */
  datatype Db = Db(
    users: map<nat, User>, roles: map<string, bool>, grants: set<(string, string)>, permRows: set<string>,
    tokens: map<nat, nat>, nextToken: nat, auths: seq<Auth>, entries: seq<Entry>, drafts: seq<Draft>)

  datatype Error =
    | ValidationError | InvalidCode | ReservedCode | NeedAdminAccess | UnknownPermission | CodeTaken
    | NotFound | SystemRole | RoleInUse | EmailTaken | Forbidden | InvalidRole | LastSuperAdmin
    | CannotSuspendAdmin | AlreadySuspended | NotSuspended

  datatype Result<T> = Ok(value: T) | Err(error: Error)

  // ---------------------------------------------------------------- role permissions

  /** `uniqStrings`: trimmed, without empty ones and repetitions. */
  function Uniq(codes: seq<string>, trim: string -> string): seq<string> {
    if codes == [] then []
    else
      var before := Uniq(codes[..|codes| - 1], trim);
      var last := trim(codes[|codes| - 1]);
      if last == "" || last in before then before else before + [last]
  }

  method UniqStrings(codes: seq<string>, trim: string -> string) returns (list: seq<string>)
    ensures list == Uniq(codes, trim)
  {
    var seen: set<string> := {};
    list := [];
    for i := 0 to |codes|
      invariant list == Uniq(codes[..i], trim) && seen == set s | s in list
    {
      assert codes[..i + 1][..i] == codes[..i];
      var s := trim(codes[i]);
      if s != "" && s !in seen {
        seen := seen + {s};
        list := list + [s];
      }
    }
    assert codes[..|codes|] == codes;
  }

  /** `loadCatalogPerms`: the permissions a role is to have, or why the list is refused. */
  function LoadPerms(permRows: set<string>, codes: seq<string>): Result<set<string>> {
    if codes == [] then Err(NeedAdminAccess)
    else if exists c :: c in codes && c !in Catalog() then Err(UnknownPermission)
    else
      var perms := set c | c in codes && c in permRows;
      if |perms| != |codes| then Err(UnknownPermission)
      else if ACCESS !in perms then Err(NeedAdminAccess)
      else Ok(perms)
  }

  /** The grants after a role's permission set was replaced. */
  function Replaced(grants: set<(string, string)>, code: string, perms: set<string>): set<(string, string)> {
    (set g | g in grants && g.0 != code) + (set p | p in perms :: (code, p))
  }

  // ---------------------------------------------------------------- handlers

  predicate Reserved(code: string) {
    code == ADMIN || code == OWNER || code == VIEWER
  }

  predicate IsSystem(roles: map<string, bool>, code: string) {
    if code == "" || code == OWNER || code == VIEWER then false
    else if code !in roles then code == ADMIN
    else roles[code]
  }

  function Holders(users: map<nat, User>, code: string): set<nat> {
    set u | u in users && users[u].role == code
  }

  lemma SomeHolder(users: map<nat, User>, code: string)
    ensures |Holders(users, code)| > 0 <==> exists u :: u in users && users[u].role == code
  {
    if u :| u in users && users[u].role == code {
      assert u in Holders(users, code);
    } else {
      assert Holders(users, code) == {};
    }
  }

  function TryCreateRole(db: Db, code: string, named: bool, perms: seq<string>): Result<Db> {
    if code == "" || !named then Err(ValidationError)
    else if !CodeShape(code) then Err(InvalidCode)
    else if Reserved(code) then Err(ReservedCode)
    else
      match LoadPerms(db.permRows, perms)
      case Err(e) => Err(e)
      case Ok(granted) =>
        if code in db.roles then Err(CodeTaken)
        else Ok(db.(roles := db.roles[code := false], grants := Replaced(db.grants, code, granted)))
  }

  function TryUpdateRole(db: Db, code: string, named: bool, perms: seq<string>): Result<Db> {
    if code !in db.roles then Err(NotFound)
    else if db.roles[code] || code == ADMIN then Err(SystemRole)
    else if !named then Err(ValidationError)
    else
      match LoadPerms(db.permRows, perms)
      case Err(e) => Err(e)
      case Ok(granted) => Ok(db.(grants := Replaced(db.grants, code, granted)))
  }

  function TryDeleteRole(db: Db, code: string): Result<Db> {
    if code !in db.roles then Err(NotFound)
    else if db.roles[code] || code == ADMIN then Err(SystemRole)
    else if |Holders(db.users, code)| > 0 then Err(RoleInUse)
    else Ok(db.(roles := db.roles - {code}, grants := Replaced(db.grants, code, {})))
  }

  /** The row that `UpdateUser` saves. `mayAssign`: the acting admin's loaded permissions include
      `users.role.assign`. */
  function UpdatedRow(db: Db, user: nat, emailTaken: bool, role: Option<string>, mayAssign: bool): Result<User> {
    if user !in db.users then Err(NotFound)
    else if emailTaken then Err(EmailTaken)
    else
      var was := db.users[user].role;
      if role.None? || role.value == was then Ok(db.users[user])
      else if !mayAssign then Err(Forbidden)
      else if role.value == VIEWER then Err(InvalidRole)
      else if role.value != OWNER && role.value !in db.roles then Err(InvalidRole)
      else if IsSystem(db.roles, was) && |Holders(db.users, was)| <= 1 then Err(LastSuperAdmin)
      else Ok(db.users[user].(role := role.value))
  }

  function SuspendedRow(db: Db, user: nat): Result<User> {
    if user !in db.users then Err(NotFound)
    else if IsSystem(db.roles, db.users[user].role) then Err(CannotSuspendAdmin)
    else if db.users[user].disabled then Err(AlreadySuspended)
    else Ok(db.users[user].(disabled := true))
  }

  function UnsuspendedRow(db: Db, user: nat): Result<User> {
    if user !in db.users then Err(NotFound)
    else if !db.users[user].disabled then Err(NotSuspended)
    else Ok(db.users[user].(disabled := false))
  }

  predicate OnUser(op: Op) {
    op.UpdateUser? || op.SuspendUser? || op.UnsuspendUser?
  }

  /** The row that a handler on a user is about to save. */
  function RowFor(db: Db, op: Op, mayAssign: bool): Result<User>
    requires OnUser(op)
  {
    match op
    case UpdateUser(user, emailTaken, role) => UpdatedRow(db, user, emailTaken, role, mayAssign)
    case SuspendUser(user) => SuspendedRow(db, user)
    case UnsuspendUser(user) => UnsuspendedRow(db, user)
  }

  /** The checks and the save without anything in between. */
  function SavedAtOnce(db: Db, user: nat, r: Result<User>): Result<Db> {
    match r case Ok(row) => Ok(db.(users := db.users[user := row])) case Err(e) => Err(e)
  }

  function Try(db: Db, op: Op, mayAssign: bool): Result<Db> {
    match op
    case CreateRole(code, named, perms) => TryCreateRole(db, code, named, perms)
    case UpdateRole(code, named, perms) => TryUpdateRole(db, code, named, perms)
    case DeleteRole(code) => TryDeleteRole(db, code)
    case _ => SavedAtOnce(db, op.user, RowFor(db, op, mayAssign))
  }

  /** A handler that nothing disturbs. */
  function Apply(db: Db, op: Op, mayAssign: bool): Db {
    match Try(db, op, mayAssign) case Ok(next) => next case Err(_) => db
  }

  // ---------------------------------------------------------------- boot

  /** `SeedPermissions` and `SeedSuperAdmin`. */
  function Seed(db: Db): Db {
    db.(permRows := db.permRows + Elements(Catalog()),
        roles := db.roles[ADMIN := true],
        grants := db.grants + AdminGrants(Catalog()))
  }

  function Elements(catalog: seq<string>): set<string> {
    set p | p in catalog
  }

  function AdminGrants(catalog: seq<string>): set<(string, string)> {
    set p | p in catalog :: (ADMIN, p)
  }

  /** `SuperAdminCatalogReady`, the boot gate. */
  predicate Ready(db: Db) {
    && ADMIN in db.roles
    && (forall p | p in Catalog() :: (ADMIN, p) in db.grants)
    && exists u :: u in db.users && db.users[u].role == ADMIN
  }

  // ---------------------------------------------------------------- middleware

  datatype Route = Route(post: bool, path: string)

  predicate OccursAt(s: string, t: string, i: nat) {
    i + |t| <= |s| && s[i..i + |t|] == t
  }

  predicate Contains(s: string, t: string) {
    exists i | 0 <= i <= |s| :: OccursAt(s, t, i)
  }

  predicate HasSuffix(s: string, t: string) {
    |t| <= |s| && s[|s| - |t|..] == t
  }

  predicate IsStopRequest(route: Route) {
    route.post && Contains(route.path, "/admin/users/") && HasSuffix(route.path, "/stop-impersonation")
  }

  predicate Enabled(db: Db, user: nat) {
    user in db.users && !db.users[user].disabled
  }

  /** `RejectDisabled` lets the request through. */
  predicate Passes(db: Db, jwt: Jwt, route: Route) {
    || IsStopRequest(route)
    || (&& jwt.subject != 0 && Enabled(db, jwt.subject)
        && (jwt.impersonating ==> jwt.impersonator != 0 && Enabled(db, jwt.impersonator)))
  }

  /** `LoadStaffPermissions`: the permission codes of a role, none for a role without a row. */
  function PermsOf(db: Db, role: string): set<string> {
    set g | g in db.grants && g.0 == role && role in db.roles :: g.1
  }

  predicate Requires(perms: set<string>, code: string) {
    (code != ACCESS ==> ACCESS in perms) && code in perms
  }

  predicate RequiresAny(perms: set<string>, codes: seq<string>) {
    ACCESS in perms && exists c :: c in codes && c in perms
  }

  function Needed(op: Op): string {
    match op
    case CreateRole(_, _, _) => ROLES_WRITE
    case UpdateRole(_, _, _) => ROLES_WRITE
    case DeleteRole(_) => ROLES_WRITE
    case UpdateUser(_, _, _) => USERS_UPDATE
    case SuspendUser(_) => SUSPEND
    case UnsuspendUser(_) => SUSPEND
  }

  /** The route of a request; `id` is the path parameter. */
  function RouteOf(op: Op, id: string): Route {
    match op
    case CreateRole(_, _, _) => Route(true, "/api/admin/roles")
    case UpdateRole(_, _, _) => Route(false, "/api/admin/roles/" + id)
    case DeleteRole(_) => Route(false, "/api/admin/roles/" + id)
    case UpdateUser(_, _, _) => Route(false, "/api/admin/users/" + id)
    case SuspendUser(_) => Route(true, "/api/admin/users/" + id + "/suspend")
    case UnsuspendUser(_) => Route(true, "/api/admin/users/" + id + "/unsuspend")
  }

  // ---------------------------------------------------------------- the whole system

  /** An admin request enters its handler and later runs it; a handler on a user saves the row later still.
      A login or a registration ends in issuing tokens; a refresh goes through its handler's statements one
      by one. */
  datatype Event =
    | Enter(jwt: Jwt, op: Op, id: string)
    | Handle(entry: nat)
    | Register(user: nat)
    | Login(user: nat, passwordOk: bool)
    | FindToken(token: nat)
    | CheckUser(auth: nat)
    | DeleteToken(auth: nat)
    | IssueTokens(auth: nat)
    | Logout(token: nat)
    | LoadMe(user: nat)
    | Save(draft: nat)

  /** The admin request reaches its handler: middleware, staff permissions and the route's guard. */
  predicate Served(db: Db, jwt: Jwt, op: Op, id: string) {
    && Passes(db, jwt, RouteOf(op, id))
    && !jwt.impersonating && jwt.subject in db.users
    && Requires(PermsOf(db, db.users[jwt.subject].role), Needed(op))
  }

  function StepEnter(db: Db, jwt: Jwt, op: Op, id: string): Db {
    if Served(db, jwt, op, id) then
      var mayAssign := ROLE_ASSIGN in PermsOf(db, db.users[jwt.subject].role);
      db.(entries := db.entries + [Entry(jwt, op, mayAssign, true)])
    else db
  }

  /** A handler on a role runs at once. One on a user makes its checks; its save comes later. */
  function StepHandle(db: Db, k: nat): Db {
    if k < |db.entries| && db.entries[k].waiting then
      var e := db.entries[k];
      var entries := db.entries[k := e.(waiting := false)];
      if OnUser(e.op) then
        var r := RowFor(db, e.op, e.mayAssign);
        db.(entries := entries, drafts := if r.Ok? then db.drafts + [Draft(e.op.user, r.value)] else db.drafts)
      else Apply(db, e.op, e.mayAssign).(entries := entries)
    else db
  }

  function StepRegister(db: Db, user: nat): Db {
    if user in db.users then db
    else db.(users := db.users[user := User(OWNER, false)], auths := db.auths + [Auth(user, Issuing)])
  }

  function StepLogin(db: Db, user: nat, passwordOk: bool): Db {
    if passwordOk && Enabled(db, user) then db.(auths := db.auths + [Auth(user, Issuing)]) else db
  }

  function StepFind(db: Db, token: nat): Db {
    if token in db.tokens then db.(auths := db.auths + [Auth(db.tokens[token], Found(token))]) else db
  }

  function Move(auths: seq<Auth>, a: nat, phase: AuthPhase): seq<Auth>
    requires a < |auths|
  {
    auths[a := auths[a].(phase := phase)]
  }

  function StepCheck(db: Db, a: nat): Db {
    if a < |db.auths| && db.auths[a].phase.Found? then
      var (user, token) := (db.auths[a].user, db.auths[a].phase.token);
      if user !in db.users then db.(auths := Move(db.auths, a, Ended))
      else if db.users[user].disabled then
        db.(auths := Move(db.auths, a, Ended), tokens := db.tokens - {token})
      else db.(auths := Move(db.auths, a, Cleared(token)))
    else db
  }

  function StepDelete(db: Db, a: nat): Db {
    if a < |db.auths| && db.auths[a].phase.Cleared?
    then db.(auths := Move(db.auths, a, Issuing), tokens := db.tokens - {db.auths[a].phase.token})
    else db
  }

  function StepIssue(db: Db, a: nat): Db {
    if a < |db.auths| && db.auths[a].phase.Issuing?
    then db.(auths := Move(db.auths, a, Ended), tokens := db.tokens[db.nextToken := db.auths[a].user],
             nextToken := db.nextToken + 1)
    else db
  }

  /** `UpdateMe` loads the user's row, to save it whole later. */
  function StepLoadMe(db: Db, user: nat): Db {
    if user in db.users then db.(drafts := db.drafts + [Draft(user, db.users[user])]) else db
  }

  function StepSave(db: Db, d: nat): Db {
    if d < |db.drafts| && db.drafts[d].user in db.users
    then db.(users := db.users[db.drafts[d].user := db.drafts[d].row],
             drafts := db.drafts[..d] + db.drafts[d + 1..])
    else db
  }

  function Step(db: Db, e: Event): Db {
    match e
    case Enter(jwt, op, id) => StepEnter(db, jwt, op, id)
    case Handle(k) => StepHandle(db, k)
    case Register(user) => StepRegister(db, user)
    case Login(user, passwordOk) => StepLogin(db, user, passwordOk)
    case FindToken(token) => StepFind(db, token)
    case CheckUser(a) => StepCheck(db, a)
    case DeleteToken(a) => StepDelete(db, a)
    case IssueTokens(a) => StepIssue(db, a)
    case Logout(token) => db.(tokens := db.tokens - {token})
    case LoadMe(user) => StepLoadMe(db, user)
    case Save(d) => StepSave(db, d)
  }

  /** The step hands a token pair to the user. */
  predicate IssuesTo(db: Db, e: Event, user: nat) {
    e.IssueTokens? && e.auth < |db.auths| && db.auths[e.auth] == Auth(user, Issuing)
  }

  function Run(db: Db, es: seq<Event>): Db
    decreases |es|
  {
    if es == [] then db else Run(Step(db, es[0]), es[1..])
  }

  // ---------------------------------------------------------------- in place

  class StaffStore {
    var users: map<nat, User>
    var roles: map<string, bool>
    var grants: set<(string, string)>
    var permRows: set<string>
    var tokens: map<nat, nat>
    var nextToken: nat
    var auths: seq<Auth>
    var entries: seq<Entry>
    var drafts: seq<Draft>

    function View(): Db
      reads this
    {
      Db(users, roles, grants, permRows, tokens, nextToken, auths, entries, drafts)
    }

    constructor ()
      ensures View() == Db(map[], map[], {}, {}, map[], 0, [], [], [])
    {
      users, roles, grants, permRows := map[], map[], {}, {};
      tokens, nextToken := map[], 0;
      auths, entries, drafts := [], [], [];
    }

    /** Seeding, row by row; existing rows are left alone. */
    method SeedCatalog()
      modifies this`permRows, this`roles, this`grants
      ensures View() == Seed(old(View()))
    {
      hide Catalog;
      var catalog := Catalog();
      for i := 0 to |catalog|
        invariant permRows == old(permRows) + Elements(catalog[..i])
        invariant roles == old(roles) && grants == old(grants)
      {
        permRows := permRows + {catalog[i]};
      }
      assert catalog[..|catalog|] == catalog;
      roles := roles[ADMIN := true];
      GrantAll(catalog);
    }

    method GrantAll(catalog: seq<string>)
      modifies this`grants
      ensures grants == old(grants) + AdminGrants(catalog)
    {
      for i := 0 to |catalog|
        invariant grants == old(grants) + AdminGrants(catalog[..i])
      {
        assert catalog[..i + 1] == catalog[..i] + [catalog[i]];
        grants := grants + {(ADMIN, catalog[i])};
      }
      assert catalog[..|catalog|] == catalog;
    }

    method CatalogReady() returns (ready: bool)
      ensures ready == Ready(View())
    {
      if ADMIN !in roles {
        return false;
      }
      var have := set g | g in grants && g.0 == ADMIN :: g.1;
      var catalog := Catalog();
      var missing: seq<string> := [];
      for i := 0 to |catalog|
        invariant missing == [] <==> forall j | 0 <= j < i :: (ADMIN, catalog[j]) in grants
      {
        assert catalog[i] in have <==> (ADMIN, catalog[i]) in grants;
        if catalog[i] !in have {
          missing := missing + [catalog[i]];
        }
      }
      if |missing| > 0 {
        return false;
      }
      var n := |Holders(users, ADMIN)|;
      ready := n > 0;
      SomeHolder(users, ADMIN);
    }

    method LoadCatalogPerms(raw: seq<string>, trim: string -> string) returns (r: Result<set<string>>)
      ensures r == LoadPerms(permRows, Uniq(raw, trim))
    {
      var codes := UniqStrings(raw, trim);
      if |codes| == 0 {
        return Err(NeedAdminAccess);
      }
      var catalog := Catalog();
      for i := 0 to |codes|
        invariant forall j | 0 <= j < i :: codes[j] in catalog
      {
        if codes[i] !in catalog {
          return Err(UnknownPermission);
        }
      }
      var perms := set c | c in codes && c in permRows;
      if |perms| != |codes| {
        return Err(UnknownPermission);
      }
      if ACCESS !in perms {
        return Err(NeedAdminAccess);
      }
      r := Ok(perms);
    }

    /** Deletes the role's rows, then inserts one for every permission. */
    method ReplaceRolePerms(code: string, perms: set<string>)
      modifies this`grants
      ensures grants == Replaced(old(grants), code, perms)
    {
      grants := set g | g in grants && g.0 != code;
      ghost var others := grants;
      var left := perms;
      while left != {}
        invariant left <= perms
        invariant grants == others + set p | p in perms - left :: (code, p)
        decreases left
      {
        var p :| p in left;
        grants := grants + {(code, p)};
        left := left - {p};
      }
    }

    method DoCreateRole(code: string, named: bool, perms: seq<string>, trim: string -> string)
      returns (error: Option<Error>)
      modifies this`roles, this`grants
      ensures match TryCreateRole(old(View()), code, named, Uniq(perms, trim))
              case Ok(db) => error.None? && View() == db
              case Err(e) => error == Some(e) && View() == old(View())
    {
      if code == "" || !named {
        return Some(ValidationError);
      }
      if !CodeShape(code) {
        return Some(InvalidCode);
      }
      if Reserved(code) {
        return Some(ReservedCode);
      }
      var loaded := LoadCatalogPerms(perms, trim);
      if loaded.Err? {
        return Some(loaded.error);
      }
      if code in roles {
        return Some(CodeTaken);
      }
      roles := roles[code := false];
      ReplaceRolePerms(code, loaded.value);
      error := None;
    }

    method DoUpdateRole(code: string, named: bool, perms: seq<string>, trim: string -> string)
      returns (error: Option<Error>)
      modifies this`grants
      ensures match TryUpdateRole(old(View()), code, named, Uniq(perms, trim))
              case Ok(db) => error.None? && View() == db
              case Err(e) => error == Some(e) && View() == old(View())
    {
      if code !in roles {
        return Some(NotFound);
      }
      if roles[code] || code == ADMIN {
        return Some(SystemRole);
      }
      if !named {
        return Some(ValidationError);
      }
      var loaded := LoadCatalogPerms(perms, trim);
      if loaded.Err? {
        return Some(loaded.error);
      }
      ReplaceRolePerms(code, loaded.value);
      error := None;
    }

    method DoDeleteRole(code: string) returns (error: Option<Error>)
      modifies this`roles, this`grants
      ensures match TryDeleteRole(old(View()), code)
              case Ok(db) => error.None? && View() == db
              case Err(e) => error == Some(e) && View() == old(View())
    {
      if code !in roles {
        return Some(NotFound);
      }
      if roles[code] || code == ADMIN {
        return Some(SystemRole);
      }
      if |Holders(users, code)| > 0 {
        return Some(RoleInUse);
      }
      ReplaceRolePerms(code, {});
      roles := roles - {code};
      error := None;
    }

    /** The checks of `UpdateUser`, up to its save. */
    method PrepareUpdate(user: nat, emailTaken: bool, role: Option<string>, mayAssign: bool)
      returns (error: Option<Error>)
      modifies this`drafts
      ensures match UpdatedRow(old(View()), user, emailTaken, role, mayAssign)
              case Ok(row) => error.None? && View() == old(View()).(drafts := old(drafts) + [Draft(user, row)])
              case Err(e) => error == Some(e) && View() == old(View())
    {
      if user !in users {
        return Some(NotFound);
      }
      if emailTaken {
        return Some(EmailTaken);
      }
      var u := users[user];
      if role.Some? && role.value != u.role {
        if !mayAssign {
          return Some(Forbidden);
        }
        if role.value == VIEWER {
          return Some(InvalidRole);
        }
        if role.value != OWNER && role.value !in roles {
          return Some(InvalidRole);
        }
        if IsSystem(roles, u.role) && |Holders(users, u.role)| <= 1 {
          return Some(LastSuperAdmin);
        }
        u := u.(role := role.value);
      }
      drafts := drafts + [Draft(user, u)];
      error := None;
    }

    method PrepareSuspend(user: nat) returns (error: Option<Error>)
      modifies this`drafts
      ensures match SuspendedRow(old(View()), user)
              case Ok(row) => error.None? && View() == old(View()).(drafts := old(drafts) + [Draft(user, row)])
              case Err(e) => error == Some(e) && View() == old(View())
    {
      if user !in users {
        return Some(NotFound);
      }
      if IsSystem(roles, users[user].role) {
        return Some(CannotSuspendAdmin);
      }
      if users[user].disabled {
        return Some(AlreadySuspended);
      }
      drafts := drafts + [Draft(user, users[user].(disabled := true))];
      error := None;
    }

    method PrepareUnsuspend(user: nat) returns (error: Option<Error>)
      modifies this`drafts
      ensures match UnsuspendedRow(old(View()), user)
              case Ok(row) => error.None? && View() == old(View()).(drafts := old(drafts) + [Draft(user, row)])
              case Err(e) => error == Some(e) && View() == old(View())
    {
      if user !in users {
        return Some(NotFound);
      }
      if !users[user].disabled {
        return Some(NotSuspended);
      }
      drafts := drafts + [Draft(user, users[user].(disabled := false))];
      error := None;
    }

    /** `userRepo.Update`: the whole row. */
    method SaveRow(d: nat)
      modifies this`users, this`drafts
      ensures View() == StepSave(old(View()), d)
    {
      if d < |drafts| && drafts[d].user in users {
        users := users[drafts[d].user := drafts[d].row];
        drafts := drafts[..d] + drafts[d + 1..];
      }
    }

    /** The whole handler, when nothing runs in between. */
    method DoUpdateUser(user: nat, emailTaken: bool, role: Option<string>, mayAssign: bool)
      returns (error: Option<Error>)
      modifies this`users, this`drafts
      ensures match SavedAtOnce(old(View()), user, UpdatedRow(old(View()), user, emailTaken, role, mayAssign))
              case Ok(db) => error.None? && View() == db
              case Err(e) => error == Some(e) && View() == old(View())
    {
      error := PrepareUpdate(user, emailTaken, role, mayAssign);
      if error.None? {
        SaveRow(|drafts| - 1);
      }
    }

    method DoSuspendUser(user: nat) returns (error: Option<Error>)
      modifies this`users, this`drafts
      ensures match SavedAtOnce(old(View()), user, SuspendedRow(old(View()), user))
              case Ok(db) => error.None? && View() == db
              case Err(e) => error == Some(e) && View() == old(View())
    {
      error := PrepareSuspend(user);
      if error.None? {
        SaveRow(|drafts| - 1);
      }
    }

    method DoUnsuspendUser(user: nat) returns (error: Option<Error>)
      modifies this`users, this`drafts
      ensures match SavedAtOnce(old(View()), user, UnsuspendedRow(old(View()), user))
              case Ok(db) => error.None? && View() == db
              case Err(e) => error == Some(e) && View() == old(View())
    {
      error := PrepareUnsuspend(user);
      if error.None? {
        SaveRow(|drafts| - 1);
      }
    }

    method RegisterUser(user: nat)
      modifies this`users, this`auths
      ensures View() == StepRegister(old(View()), user)
    {
      if user !in users {
        users := users[user := User(OWNER, false)];
        auths := auths + [Auth(user, Issuing)];
      }
    }

    /** Up to the test for disabled accounts; the tokens are issued later. */
    method LoginUser(user: nat, passwordOk: bool)
      modifies this`auths
      ensures View() == StepLogin(old(View()), user, passwordOk)
    {
      if user !in users || !passwordOk {
        return;
      }
      if users[user].disabled {
        return;
      }
      auths := auths + [Auth(user, Issuing)];
    }

    method LoadOwnRow(user: nat)
      modifies this`drafts
      ensures View() == StepLoadMe(old(View()), user)
    {
      if user in users {
        drafts := drafts + [Draft(user, users[user])];
      }
    }

    method FindByRawToken(token: nat)
      modifies this`auths
      ensures View() == StepFind(old(View()), token)
    {
      if token in tokens {
        auths := auths + [Auth(tokens[token], Found(token))];
      }
    }

    method CheckDisabled(a: nat)
      modifies this`auths, this`tokens
      ensures View() == StepCheck(old(View()), a)
    {
      if a < |auths| && auths[a].phase.Found? {
        var user, token := auths[a].user, auths[a].phase.token;
        if user !in users {
          auths := Move(auths, a, Ended);
        } else if users[user].disabled {
          tokens := tokens - {token};
          auths := Move(auths, a, Ended);
        } else {
          auths := Move(auths, a, Cleared(token));
        }
      }
    }

    method DeleteOld(a: nat)
      modifies this`auths, this`tokens
      ensures View() == StepDelete(old(View()), a)
    {
      if a < |auths| && auths[a].phase.Cleared? {
        tokens := tokens - {auths[a].phase.token};
        auths := Move(auths, a, Issuing);
      }
    }

    method IssueNew(a: nat)
      modifies this`auths, this`tokens, this`nextToken
      ensures View() == StepIssue(old(View()), a)
    {
      if a < |auths| && auths[a].phase.Issuing? {
        tokens := tokens[nextToken := auths[a].user];
        nextToken := nextToken + 1;
        auths := Move(auths, a, Ended);
      }
    }

    /** The whole refresh handler, when nothing runs in between: on an unknown token, 401 at once. */
    method DoRefresh(token: nat)
      modifies this`auths, this`tokens, this`nextToken
      ensures var a := |old(auths)|;
              View() == StepIssue(StepDelete(StepCheck(StepFind(old(View()), token), a), a), a)
    {
      var a := |auths|;
      FindByRawToken(token);
      CheckDisabled(a);
      DeleteOld(a);
      IssueNew(a);
    }
  }
}
