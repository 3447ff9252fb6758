/** What whole runs of admin requests and of users' own updates keep, when the checks of a handler on a user
    and its save are two steps. */
module StaffRuns {
  import opened Common
  import opened Staff
  import opened StaffGate

  // ---------------------------------------------------------------- the invariant over runs

  predicate Saves(db: Db, e: Event) {
    e.Save? && e.draft < |db.drafts| && db.drafts[e.draft].user in db.users
  }

  /** A save does not take the role from the only Super Admin and writes a role that exists. */
  predicate Harmless(db: Db, e: Event) {
    Saves(db, e) ==>
      var d := db.drafts[e.draft];
      && (d.row.role == ADMIN || Holders(db.users, ADMIN) != {d.user})
      && (d.row.role == OWNER || d.row.role == VIEWER || d.row.role in db.roles)
  }

  lemma TablesKeepGood(db: Db, next: Db)
    requires Good(db) && next.users == db.users && next.roles == db.roles && next.grants == db.grants
    ensures Good(next)
  {
    hide Catalog;
  }

  lemma RegisterKeepsGood(db: Db, user: nat)
    requires Good(db)
    ensures Good(StepRegister(db, user))
  {
    hide Catalog;
    var u :| u in db.users && db.users[u].role == ADMIN;
    assert StepRegister(db, user).users[u].role == ADMIN;
  }

  lemma HandleKeepsGood(db: Db, k: nat)
    requires Good(db)
    ensures Good(StepHandle(db, k))
  {
    hide Good, Apply, RowFor;
    if k < |db.entries| && db.entries[k].waiting {
      var op, mayAssign := db.entries[k].op, db.entries[k].mayAssign;
      ApplyKeepsGood(db, op, mayAssign);
      TablesKeepGood(if OnUser(op) then db else Apply(db, op, mayAssign), StepHandle(db, k));
    }
  }

  lemma SaveGoodIff(db: Db, d: nat)
    requires Good(db)
    ensures Good(StepSave(db, d)) <==> Harmless(db, Save(d))
  {
    hide Catalog, CustomOk, NamesOk;
    if Saves(db, Save(d)) {
      var u, row, next := db.drafts[d].user, db.drafts[d].row, StepSave(db, d);
      HolderAfter(db.users, u, row);
      assert next.users[u] == row;
      TablesAfterSave(db, next);
    }
  }

  lemma TablesAfterSave(db: Db, next: Db)
    requires Good(db) && next.roles == db.roles && next.grants == db.grants
    ensures CustomOk(next) && NamesOk(next) && SystemAdmin(next)
    ensures Ready(next) <==> exists u :: u in next.users && next.users[u].role == ADMIN
  {
    hide Catalog;
  }

  /** After one row was written somebody holds the role, unless it was the only holder's and is none. */
  lemma HolderAfter(users: map<nat, User>, user: nat, row: User)
    requires user in users && exists u :: u in users && users[u].role == ADMIN
    ensures var next := users[user := row];
            (exists u :: u in next && next[u].role == ADMIN) <==> row.role == ADMIN || Holders(users, ADMIN) != {user}
  {
    var next := users[user := row];
    var u :| u in users && users[u].role == ADMIN;
    assert u in Holders(users, ADMIN);
    if row.role == ADMIN {
      assert next[user].role == ADMIN;
    } else if v :| v in Holders(users, ADMIN) && v != user {
      assert next[v].role == ADMIN;
    } else {
      assert Holders(users, ADMIN) == {user};
      assert forall v | v in next && v != user :: v !in Holders(users, ADMIN) ==> next[v].role != ADMIN;
    }
  }

  /** A step keeps the invariant exactly when it is no harmful save. */
  lemma StepGoodIff(db: Db, e: Event)
    requires Good(db)
    ensures Good(Step(db, e)) <==> Harmless(db, e)
  {
    hide Good, StepHandle, StepRegister, StepSave, Served;
    match e
    case Handle(k) => HandleKeepsGood(db, k);
    case Register(user) => RegisterKeepsGood(db, user);
    case Save(d) => SaveGoodIff(db, d);
    case _ => TablesKeepGood(db, Step(db, e));
  }

  predicate GoodThroughout(db: Db, es: seq<Event>)
    decreases |es|
  {
    Good(db) && (es != [] ==> GoodThroughout(Step(db, es[0]), es[1..]))
  }

  predicate NeverHarms(db: Db, es: seq<Event>)
    decreases |es|
  {
    es != [] ==> Harmless(db, es[0]) && NeverHarms(Step(db, es[0]), es[1..])
  }

  /** At every moment of a run the Super Admin role has the full catalog and its system flag, somebody holds
      it, every user's role is owner, viewer or an existing role, and every custom role has `admin.access`
      and only catalog permissions: if and only if no save of the run is harmful. */
  lemma {:induction false} GoodThroughoutIff(db: Db, es: seq<Event>)
    requires Good(db)
    ensures GoodThroughout(db, es) <==> NeverHarms(db, es)
    ensures NeverHarms(db, es) ==> Good(Run(db, es))
    decreases |es|
  {
    hide Good, Step, Harmless;
    if es != [] {
      StepGoodIff(db, es[0]);
      if Harmless(db, es[0]) {
        GoodThroughoutIff(Step(db, es[0]), es[1..]);
      } else {
        NotGood(Step(db, es[0]), es[1..]);
      }
    }
  }

  lemma NotGood(db: Db, es: seq<Event>)
    requires !Good(db)
    ensures !GoodThroughout(db, es)
  {
  }

  // ---------------------------------------------------------------- what the guard then means

  lemma GrantedIs(db: Db, role: string, p: string)
    ensures p in PermsOf(db, role) <==> role in db.roles && (role, p) in db.grants
  {
    if role in db.roles && (role, p) in db.grants {
      var g := (role, p);
      assert g in db.grants && g.0 == role;
    }
  }

  lemma AccessInCatalog()
    ensures ACCESS in Catalog()
  {
    assert Catalog()[0] == ACCESS;
  }

  /** After any run the guard lets a Super Admin through for every catalog permission, an owner or viewer
      for none, and a custom role for exactly the permissions on its row. */
  lemma GuardMeans(db: Db, es: seq<Event>, code: string, p: string, q: string)
    requires Good(db) && NeverHarms(db, es)
    ensures var end := Run(db, es);
            && (p in Catalog() ==> Requires(PermsOf(end, ADMIN), p))
            && !Requires(PermsOf(end, OWNER), p) && !Requires(PermsOf(end, VIEWER), p)
            && (code in end.roles ==> (Requires(PermsOf(end, code), p) <==> (code, p) in end.grants))
            && (code in end.roles ==>
                  (RequiresAny(PermsOf(end, code), [p, q]) <==> (code, p) in end.grants || (code, q) in end.grants))
            && !RequiresAny(PermsOf(end, OWNER), [p, q]) && !RequiresAny(PermsOf(end, VIEWER), [p, q])
  {
    hide Catalog, PermsOf, Run, NeverHarms;
    GoodThroughoutIff(db, es);
    AccessInCatalog();
    var end := Run(db, es);
    GrantedIs(end, ADMIN, p);
    GrantedIs(end, ADMIN, ACCESS);
    GrantedIs(end, OWNER, p);
    GrantedIs(end, VIEWER, p);
    GrantedIs(end, OWNER, ACCESS);
    GrantedIs(end, VIEWER, ACCESS);
    GrantedIs(end, code, p);
    GrantedIs(end, code, q);
    GrantedIs(end, code, ACCESS);
    assert p == [p, q][0] && q == [p, q][1];
  }

  // ---------------------------------------------------------------- requests of one Super Admin

  /** A holder who is not suspended can pass the guard. */
  predicate Boss(db: Db, boss: nat) {
    boss != 0 && Enabled(db, boss) && db.users[boss].role == ADMIN
  }

  function Asks(boss: nat, user: nat, role: string): Event {
    Enter(Jwt(boss, false, 0), UpdateUser(user, false, Some(role)), "")
  }

  /** `boss` asks for a role change of `user`, and its checks run; `k` requests entered before. */
  function Checked(k: nat, boss: nat, user: nat, role: string): seq<Event> {
    [Asks(boss, user, role)] + [Handle(k)]
  }

  predicate Allowed(db: Db, user: nat, role: string) {
    UpdatedRow(db, user, false, Some(role), true).Ok?
  }

  lemma BossIsServed(db: Db, boss: nat, user: nat, role: string)
    requires Ready(db) && Boss(db, boss)
    ensures Served(db, Jwt(boss, false, 0), UpdateUser(user, false, Some(role)), "")
    ensures ROLE_ASSIGN in PermsOf(db, ADMIN)
  {
    assert Catalog()[0] == ACCESS && Catalog()[2] == USERS_UPDATE && Catalog()[3] == ROLE_ASSIGN;
    GrantedIs(db, ADMIN, ACCESS);
    GrantedIs(db, ADMIN, USERS_UPDATE);
    GrantedIs(db, ADMIN, ROLE_ASSIGN);
  }

  lemma {:induction false} RunPlus(db: Db, es: seq<Event>, more: seq<Event>)
    ensures Run(db, es + more) == Run(Run(db, es), more)
    decreases |es|
  {
    hide Step;
    if es == [] {
      assert es + more == more;
    } else {
      assert (es + more)[1..] == es[1..] + more;
      RunPlus(Step(db, es[0]), es[1..], more);
    }
  }

  lemma RunOne(db: Db, e: Event)
    ensures Run(db, [e]) == Step(db, e)
  {
    hide Step;
    assert Run(Step(db, e), []) == Step(db, e);
  }

  lemma SavesTheRole(db: Db, user: nat, role: string)
    requires Allowed(db, user, role)
    ensures user in db.users
    ensures UpdatedRow(db, user, false, Some(role), true).value == db.users[user].(role := role)
  {
  }

  lemma SameChecks(db: Db, next: Db, user: nat, role: string)
    requires next.users == db.users && next.roles == db.roles
    ensures UpdatedRow(next, user, false, Some(role), true) == UpdatedRow(db, user, false, Some(role), true)
  {
  }

  /** A request of `boss` enters and passes its checks. */
  lemma CheckStep(db: Db, boss: nat, user: nat, role: string)
    requires Ready(db) && Boss(db, boss) && Allowed(db, user, role)
    ensures user in db.users
    ensures var next := Run(db, Checked(|db.entries|, boss, user, role));
            && next == db.(entries := next.entries, drafts := next.drafts)
            && |next.entries| == |db.entries| + 1
            && next.drafts == db.drafts + [Draft(user, db.users[user].(role := role))]
  {
    hide Catalog, Served, PermsOf, UpdatedRow, Ready;
    BossIsServed(db, boss, user, role);
    SavesTheRole(db, user, role);
    var op := UpdateUser(user, false, Some(role));
    var entered := Step(db, Asks(boss, user, role));
    assert entered == db.(entries := db.entries + [Entry(Jwt(boss, false, 0), op, true, true)]);
    RunPlus(db, [Asks(boss, user, role)], [Handle(|db.entries|)]);
    RunOne(db, Asks(boss, user, role));
    RunOne(entered, Handle(|db.entries|));
    SameChecks(db, entered, user, role);
  }

  lemma SaveStep(db: Db, d: nat)
    requires d < |db.drafts| && db.drafts[d].user in db.users
    ensures Run(db, [Save(d)]) == db.(users := db.users[db.drafts[d].user := db.drafts[d].row],
                                      drafts := db.drafts[..d] + db.drafts[d + 1..])
  {
    RunOne(db, Save(d));
  }

  /** The request, its checks and its save: the `d`-th of those waiting. */
  function Change(k: nat, d: nat, boss: nat, user: nat, role: string): seq<Event> {
    Checked(k, boss, user, role) + [Save(d)]
  }

  lemma ChangeStep(db: Db, boss: nat, user: nat, role: string)
    requires Ready(db) && Boss(db, boss) && Allowed(db, user, role)
    ensures user in db.users
    ensures var next := Run(db, Change(|db.entries|, |db.drafts|, boss, user, role));
            && next == db.(users := db.users[user := db.users[user].(role := role)], entries := next.entries)
            && |next.entries| == |db.entries| + 1
  {
    hide Ready, UpdatedRow, Run, Step;
    CheckStep(db, boss, user, role);
    var checks := Checked(|db.entries|, boss, user, role);
    var next := Run(db, checks);
    RunPlus(db, checks, [Save(|db.drafts|)]);
    SaveStep(next, |db.drafts|);
    assert next.drafts[..|db.drafts|] + next.drafts[|db.drafts| + 1..] == db.drafts;
  }

  /** A holder may lose the role unless it is the only one of a system role; an owner may get it. */
  lemma AllowedIf(db: Db, user: nat, role: string)
    requires ADMIN in db.roles && user in db.users && (role == OWNER || role == ADMIN)
    requires db.users[user].role == OWNER || db.users[user].role == ADMIN
    requires db.users[user].role == ADMIN ==> !SystemAdmin(db) || |Holders(db.users, ADMIN)| > 1
    ensures Allowed(db, user, role)
  {
    ReservedDiffer();
  }

  // ---------------------------------------------------------------- two demotions at once

  /** `boss` has the checks of both demotions run before their saves. */
  function Crossing(n: nat, boss: nat, other: nat): seq<Event> {
    Checked(n, boss, other, OWNER) + (Checked(n + 1, boss, boss, OWNER) + ([Save(1)] + [Save(0)]))
  }

  /** Each of the last two Super Admins may be demoted while the other is there; checked before either is
      saved, both are. */
  lemma TwoDemotions(db: Db, boss: nat, other: nat)
    requires Good(db) && db.drafts == [] && Boss(db, boss) && Holders(db.users, ADMIN) == {boss, other} && boss != other
    ensures !Ready(Run(db, Crossing(|db.entries|, boss, other)))
  {
    hide Run, Step, Ready, UsersOk, CustomOk, NamesOk, Allowed, UpdatedRow;
    var n := |db.entries|;
    assert other in Holders(db.users, ADMIN) && boss in Holders(db.users, ADMIN);
    AllowedIf(db, other, OWNER);
    CheckStep(db, boss, other, OWNER);
    var one := Run(db, Checked(n, boss, other, OWNER));
    SameReady(db, one);
    AllowedIf(one, boss, OWNER);
    CheckStep(one, boss, boss, OWNER);
    var two := Run(one, Checked(n + 1, boss, boss, OWNER));
    SaveStep(two, 1);
    var three := Run(two, [Save(1)]);
    SaveStep(three, 0);
    RunPlus(db, Checked(n, boss, other, OWNER), Checked(n + 1, boss, boss, OWNER) + ([Save(1)] + [Save(0)]));
    RunPlus(one, Checked(n + 1, boss, boss, OWNER), [Save(1)] + [Save(0)]);
    RunPlus(two, [Save(1)], [Save(0)]);
    NobodyLeft(db, Run(three, [Save(0)]), {boss, other});
  }

  lemma SameReady(db: Db, next: Db)
    requires Ready(db) && next.users == db.users && next.roles == db.roles && next.grants == db.grants
    ensures Ready(next)
  {
    hide Catalog;
  }

  lemma NobodyLeft(db: Db, next: Db, gone: set<nat>)
    requires Holders(db.users, ADMIN) <= gone && next.users.Keys == db.users.Keys
    requires forall u | u in next.users ::
               if u in gone then next.users[u].role == OWNER else next.users[u] == db.users[u]
    ensures !Ready(next)
  {
    hide Catalog;
    ReservedDiffer();
    forall u | u in next.users ensures next.users[u].role != ADMIN {
      assert u !in gone ==> u !in Holders(db.users, ADMIN);
    }
  }

  lemma LoadStep(db: Db, user: nat)
    requires user in db.users
    ensures Run(db, [LoadMe(user)]) == db.(drafts := db.drafts + [Draft(user, db.users[user])])
  {
    RunOne(db, LoadMe(user));
  }

  /** An owner's own update loads the row; the owner is promoted, the only other Super Admin demoted, and
      the update saved. */
  function OldRow(n: nat, boss: nat, other: nat): seq<Event> {
    [LoadMe(other)] + (Change(n, 1, boss, other, ADMIN) + (Change(n + 1, 1, boss, boss, OWNER) + [Save(0)]))
  }

  lemma OldRowDemotes(db: Db, boss: nat, other: nat)
    requires Good(db) && db.drafts == [] && Boss(db, boss) && Holders(db.users, ADMIN) == {boss}
    requires other in db.users && db.users[other].role == OWNER
    ensures !Ready(Run(db, OldRow(|db.entries|, boss, other)))
  {
    hide Run, Step, Ready, UsersOk, CustomOk, NamesOk, Allowed, UpdatedRow;
    ReservedDiffer();
    var n := |db.entries|;
    var loaded := db.(drafts := [Draft(other, db.users[other])]);
    LoadStep(db, other);
    assert Run(db, [LoadMe(other)]) == loaded;
    SameReady(db, loaded);
    AllowedIf(loaded, other, ADMIN);
    ChangeStep(loaded, boss, other, ADMIN);
    var promoted := Run(loaded, Change(n, 1, boss, other, ADMIN));
    HolderStays(loaded, promoted, boss);
    assert Holders(promoted.users, ADMIN) == {boss, other};
    AllowedIf(promoted, boss, OWNER);
    ChangeStep(promoted, boss, boss, OWNER);
    var left := Run(promoted, Change(n + 1, 1, boss, boss, OWNER));
    SaveStep(left, 0);
    RunPlus(db, [LoadMe(other)], Change(n, 1, boss, other, ADMIN) + (Change(n + 1, 1, boss, boss, OWNER) + [Save(0)]));
    RunPlus(loaded, Change(n, 1, boss, other, ADMIN), Change(n + 1, 1, boss, boss, OWNER) + [Save(0)]);
    RunPlus(promoted, Change(n + 1, 1, boss, boss, OWNER), [Save(0)]);
    NobodyLeft(db, Run(left, [Save(0)]), {boss, other});
  }

  lemma HolderStays(db: Db, next: Db, user: nat)
    requires Ready(db) && next.roles == db.roles && next.grants == db.grants
    requires user in next.users && next.users[user].role == ADMIN
    ensures Ready(next)
  {
    hide Catalog;
  }

  /** A database in which both can happen: two Super Admins, or one and an owner, and a first boot. */
  function Booted(second: string): Db {
    Seed(Db(map[1 := User(ADMIN, false), 2 := User(second, false)], map[], {}, {}, map[], 0, [], [], []))
  }

  lemma BrokenAfterBoot()
    ensures Good(Booted(ADMIN)) && !Ready(Run(Booted(ADMIN), Crossing(0, 1, 2)))
    ensures Good(Booted(OWNER)) && !Ready(Run(Booted(OWNER), OldRow(0, 1, 2)))
  {
    hide Catalog, Run, Good, Ready;
    ReservedDiffer();
    BootedIsGood(ADMIN);
    BootedIsGood(OWNER);
    assert Holders(Booted(ADMIN).users, ADMIN) == {1, 2};
    assert Holders(Booted(OWNER).users, ADMIN) == {1};
    TwoDemotions(Booted(ADMIN), 1, 2);
    OldRowDemotes(Booted(OWNER), 1, 2);
  }

  lemma BootedIsGood(second: string)
    requires second == ADMIN || second == OWNER
    ensures Good(Booted(second)) && Boss(Booted(second), 1)
  {
    hide Catalog;
    var db := Db(map[1 := User(ADMIN, false), 2 := User(second, false)], map[], {}, {}, map[], 0, [], [], []);
    assert db.users[1].role == ADMIN;
    SeedMakesGood(db);
  }

  // ---------------------------------------------------------------- one demotion at a time

  /** A row that is not a Super Admin's waits to be saved for the user. */
  predicate Leaving(db: Db, user: nat) {
    exists d | d in db.drafts :: d.user == user && d.row.role != ADMIN
  }

  function Doomed(db: Db): set<nat> {
    set u | u in db.users && db.users[u].role == ADMIN && Leaving(db, u)
  }

  /** At no moment of the run are two Super Admins about to lose the role. */
  predicate OneAtATime(db: Db, es: seq<Event>)
    decreases |es|
  {
    |Doomed(db)| <= 1 && (es != [] ==> OneAtATime(Step(db, es[0]), es[1..]))
  }

  predicate Stays(db: Db, user: nat) {
    user in db.users && db.users[user].role == ADMIN && !Leaving(db, user)
  }

  /** The gate but for its holder; and some holder is not about to lose the role. */
  ghost predicate Guarded(db: Db) {
    && SystemAdmin(db) && (forall p | p in Catalog() :: (ADMIN, p) in db.grants)
    && exists u :: Stays(db, u)
  }

  lemma SpareHandle(db: Db, k: nat, s: nat) returns (v: nat)
    requires SystemAdmin(db) && Stays(db, s) && |Doomed(StepHandle(db, k))| <= 1
    requires k < |db.entries| && OnUser(db.entries[k].op)
    ensures Stays(StepHandle(db, k), v)
  {
    hide UpdatedRow;
    ReservedDiffer();
    var next := StepHandle(db, k);
    v := s;
    if Leaving(next, s) {
      var op := db.entries[k].op;
      assert op.user == s && op.UpdateUser?;
      OnlyOneMore(db, op, db.entries[k].mayAssign, s);
      OtherHolder(db.users, ADMIN, s);
      v :| v in db.users && db.users[v].role == ADMIN && v != s;
      if Leaving(next, v) {
        SubsetSize({s, v}, Doomed(next));
        assert false;
      }
    }
  }

  lemma OnlyOneMore(db: Db, op: Op, mayAssign: bool, s: nat)
    requires SystemAdmin(db) && op.UpdateUser? && op.user == s && s in db.users && db.users[s].role == ADMIN
    requires var r := RowFor(db, op, mayAssign); r.Ok? && r.value.role != ADMIN
    ensures |Holders(db.users, ADMIN)| > 1
  {
    ReservedDiffer();
  }

  lemma SpareSave(db: Db, d: nat, s: nat)
    requires Stays(db, s)
    ensures Stays(StepSave(db, d), s)
  {
    if Saves(db, Save(d)) {
      var next := StepSave(db, d);
      assert db.drafts[d] in db.drafts;
      forall x | x in next.drafts ensures x in db.drafts {}
    }
  }

  lemma SpareStep(db: Db, e: Event, s: nat) returns (v: nat)
    requires SystemAdmin(db) && Stays(db, s) && |Doomed(Step(db, e))| <= 1
    ensures Stays(Step(db, e), v)
  {
    hide Apply, Served, UpdatedRow, Doomed, StepSave;
    v := s;
    match e
    case Handle(k) =>
      if k < |db.entries| && OnUser(db.entries[k].op) {
        v := SpareHandle(db, k, s);
      } else if k < |db.entries| {
        ApplyKeepsUsers(db, db.entries[k].op, db.entries[k].mayAssign);
      }
    case Save(d) => SpareSave(db, d, s);
    case _ =>
  }

  lemma ApplyKeepsUsers(db: Db, op: Op, mayAssign: bool)
    requires !OnUser(op)
    ensures Apply(db, op, mayAssign).users == db.users && Apply(db, op, mayAssign).drafts == db.drafts
  {
    hide LoadPerms, CodeShape, Replaced;
  }

  lemma ApplyKeepsFlag(db: Db, op: Op, mayAssign: bool)
    requires SystemAdmin(db) && !OnUser(op)
    requires forall p | p in Catalog() :: (ADMIN, p) in db.grants
    ensures var next := Apply(db, op, mayAssign);
            SystemAdmin(next) && forall p | p in Catalog() :: (ADMIN, p) in next.grants
  {
    hide Catalog, LoadPerms, CodeShape;
  }

  lemma StepKeepsGuarded(db: Db, e: Event)
    requires Guarded(db) && |Doomed(Step(db, e))| <= 1
    ensures Guarded(Step(db, e))
  {
    hide Catalog, Apply, Served, UpdatedRow, Doomed, Stays, OnUser;
    var s :| Stays(db, s);
    var v := SpareStep(db, e, s);
    if e.Handle? && e.entry < |db.entries| && !OnUser(db.entries[e.entry].op) {
      ApplyKeepsFlag(db, db.entries[e.entry].op, db.entries[e.entry].mayAssign);
    }
  }

  lemma {:induction false} RunKeepsGuarded(db: Db, es: seq<Event>)
    requires Guarded(db) && OneAtATime(db, es)
    ensures Guarded(Run(db, es))
    decreases |es|
  {
    hide Guarded, Step, Doomed;
    if es != [] {
      StepKeepsGuarded(db, es[0]);
      RunKeepsGuarded(Step(db, es[0]), es[1..]);
    }
  }

  lemma GuardedIsReady(db: Db)
    ensures Guarded(db) ==> Ready(db)
    ensures Ready(db) && SystemAdmin(db) && db.drafts == [] ==> Guarded(db)
  {
    hide Catalog;
    if Ready(db) {
      var u :| u in db.users && db.users[u].role == ADMIN;
      assert db.drafts == [] ==> Stays(db, u);
    }
  }

  // ---------------------------------------------------------------- without the flag

  lemma {:induction false} OneAtATimePlus(db: Db, es: seq<Event>, more: seq<Event>)
    requires OneAtATime(db, es) && OneAtATime(Run(db, es), more)
    ensures OneAtATime(db, es + more)
    decreases |es|
  {
    hide Step, Doomed;
    if es == [] {
      assert es + more == more;
    } else {
      assert (es + more)[1..] == es[1..] + more;
      OneAtATimePlus(Step(db, es[0]), es[1..], more);
    }
  }

  lemma FewDoomed(db: Db)
    requires |db.drafts| <= 1
    ensures |Doomed(db)| <= 1
  {
    if db.drafts == [] {
      assert Doomed(db) == {};
    } else {
      assert Doomed(db) <= {db.drafts[0].user};
      SubsetSize(Doomed(db), {db.drafts[0].user});
    }
  }

  lemma ChangeOneAtATime(db: Db, k: nat, boss: nat, user: nat, role: string)
    requires db.drafts == []
    ensures OneAtATime(db, Change(k, 0, boss, user, role))
  {
    hide Apply, Served, RowFor, Doomed;
    var es := Change(k, 0, boss, user, role);
    var one := Step(db, es[0]);
    var two := Step(one, es[1]);
    var three := Step(two, es[2]);
    if k < |one.entries| && !OnUser(one.entries[k].op) {
      ApplyKeepsUsers(one, one.entries[k].op, one.entries[k].mayAssign);
    }
    FewDoomed(db);
    FewDoomed(one);
    FewDoomed(two);
    FewDoomed(three);
    assert OneAtATime(two, [es[2]]) by { assert OneAtATime(three, []); }
    assert es[1..][1..] == [es[2]];
    assert OneAtATime(one, es[1..]);
  }

  /** One enabled holder demotes all others and then itself, one after the other, all through the guard. */
  lemma {:induction false} DemoteAllServed(db: Db, boss: nat) returns (es: seq<Event>)
    requires Ready(db) && !SystemAdmin(db) && Boss(db, boss) && db.drafts == []
    ensures OneAtATime(db, es) && !Ready(Run(db, es))
    decreases |Holders(db.users, ADMIN)|
  {
    hide Run, Ready, OneAtATime, Change, Allowed;
    ReservedDiffer();
    var user := boss;
    if other :| other in db.users && db.users[other].role == ADMIN && other != boss { user := other; }
    es := Change(|db.entries|, 0, boss, user, OWNER);
    ReadyHasRole(db);
    AllowedIf(db, user, OWNER);
    ChangeStep(db, boss, user, OWNER);
    ChangeOneAtATime(db, |db.entries|, boss, user, OWNER);
    var next := Run(db, es);
    if user == boss {
      NobodyLeft(db, next, {boss});
    } else {
      HolderStays(db, next, boss);
      assert user in Holders(db.users, ADMIN);
      assert Holders(next.users, ADMIN) == Holders(db.users, ADMIN) - {user};
      var rest := DemoteAllServed(next, boss);
      RunPlus(db, es, rest);
      OneAtATimePlus(db, es, rest);
      es := es + rest;
    }
  }

  lemma ReadyHasRole(db: Db)
    requires Ready(db)
    ensures ADMIN in db.roles
  {
  }

  /** With no save pending and a holder who can act: the gate is passed after every run of requests in which
      demotions do not overlap, if and only if the Super Admin row is marked as a system role. */
  lemma GateKeptServed(db: Db, boss: nat)
    requires Ready(db) && Boss(db, boss) && db.drafts == []
    ensures (forall es | OneAtATime(db, es) :: Ready(Run(db, es))) <==> SystemAdmin(db)
  {
    hide Ready, Guarded, OneAtATime;
    if SystemAdmin(db) {
      GuardedIsReady(db);
      forall es | OneAtATime(db, es) ensures Ready(Run(db, es)) {
        RunKeepsGuarded(db, es);
        GuardedIsReady(Run(db, es));
      }
    } else {
      var es := DemoteAllServed(db, boss);
      assert !Ready(Run(db, es));
    }
  }

  // ---------------------------------------------------------------- a Super Admin who can act

  predicate SomeoneAwake(db: Db) {
    exists u :: u in db.users && db.users[u].role == ADMIN && !db.users[u].disabled
  }

  /** A save that makes a user a suspended Super Admin. */
  predicate SavesSleeper(db: Db, e: Event) {
    Saves(db, e) && db.drafts[e.draft].row.role == ADMIN && db.drafts[e.draft].row.disabled
  }

  lemma StepAwakeIff(db: Db, e: Event)
    requires AllAwake(db)
    ensures AllAwake(Step(db, e)) <==> !SavesSleeper(db, e)
  {
    hide Apply, Served, UpdatedRow, RowFor;
    ReservedDiffer();
    if e.Handle? && e.entry < |db.entries| && !OnUser(db.entries[e.entry].op) {
      ApplyKeepsUsers(db, db.entries[e.entry].op, db.entries[e.entry].mayAssign);
    }
    if SavesSleeper(db, e) {
      var u := db.drafts[e.draft].user;
      assert Step(db, e).users[u].role == ADMIN;
    }
  }

  predicate AwakeThroughout(db: Db, es: seq<Event>)
    decreases |es|
  {
    AllAwake(db) && (es != [] ==> AwakeThroughout(Step(db, es[0]), es[1..]))
  }

  predicate NeverSavesSleeper(db: Db, es: seq<Event>)
    decreases |es|
  {
    es != [] ==> !SavesSleeper(db, es[0]) && NeverSavesSleeper(Step(db, es[0]), es[1..])
  }

  /** No Super Admin is suspended at any moment of a run if and only if no save of it makes a user a suspended
      Super Admin. */
  lemma {:induction false} AwakeThroughoutIff(db: Db, es: seq<Event>)
    requires AllAwake(db)
    ensures AwakeThroughout(db, es) <==> NeverSavesSleeper(db, es)
    ensures AwakeThroughout(db, es) ==> AllAwake(Run(db, es))
    decreases |es|
  {
    hide Step, SavesSleeper, AllAwake;
    if es != [] {
      StepAwakeIff(db, es[0]);
      if AllAwake(Step(db, es[0])) {
        AwakeThroughoutIff(Step(db, es[0]), es[1..]);
      } else {
        NotAwake(Step(db, es[0]), es[1..]);
      }
    }
  }

  lemma NotAwake(db: Db, es: seq<Event>)
    requires !AllAwake(db)
    ensures !AwakeThroughout(db, es)
  {
  }

  /** So a Super Admin who can act is there after every run without a harmful or such a save. */
  lemma SomeoneCanAct(db: Db, es: seq<Event>)
    requires Good(db) && AllAwake(db) && NeverHarms(db, es) && NeverSavesSleeper(db, es)
    ensures SomeoneAwake(Run(db, es))
  {
    hide Run, NeverHarms, NeverSavesSleeper;
    GoodThroughoutIff(db, es);
    AwakeThroughoutIff(db, es);
  }

  /** No Super Admin is suspended, and none is about to be. */
  predicate Vigilant(db: Db) {
    AllAwake(db) && forall d | d in db.drafts :: !(d.row.role == ADMIN && d.row.disabled)
  }

  /** The step passes a promotion of a suspended user. */
  predicate ChecksSleeper(db: Db, e: Event) {
    && e.Handle? && e.entry < |db.entries| && db.entries[e.entry].waiting
    && PromotesSuspended(db, db.entries[e.entry].op, db.entries[e.entry].mayAssign)
  }

  predicate NeverChecksSleeper(db: Db, es: seq<Event>)
    decreases |es|
  {
    es != [] ==> !ChecksSleeper(db, es[0]) && NeverChecksSleeper(Step(db, es[0]), es[1..])
  }

  lemma StepVigilantIff(db: Db, e: Event)
    requires SystemAdmin(db) && Vigilant(db)
    ensures Vigilant(Step(db, e)) <==> !ChecksSleeper(db, e)
  {
    hide Apply, Served, PromotesSuspended;
    match e
    case Handle(k) =>
      if k < |db.entries| && db.entries[k].waiting {
        CheckVigilantIff(db, db.entries[k].op, db.entries[k].mayAssign);
        if !OnUser(db.entries[k].op) { ApplyKeepsUsers(db, db.entries[k].op, db.entries[k].mayAssign); }
      }
    case Save(d) => SaveVigilant(db, d);
    case _ =>
  }

  lemma SaveVigilant(db: Db, d: nat)
    requires Vigilant(db)
    ensures Vigilant(StepSave(db, d))
  {
    if Saves(db, Save(d)) {
      assert db.drafts[d] in db.drafts;
      forall x | x in StepSave(db, d).drafts ensures x in db.drafts {}
    }
  }

  lemma CheckVigilantIff(db: Db, op: Op, mayAssign: bool)
    requires SystemAdmin(db) && AllAwake(db)
    ensures OnUser(op) ==>
              var r := RowFor(db, op, mayAssign);
              PromotesSuspended(db, op, mayAssign) <==> r.Ok? && r.value.role == ADMIN && r.value.disabled
    ensures !OnUser(op) ==> !PromotesSuspended(db, op, mayAssign)
  {
    ReservedDiffer();
  }

  lemma StepKeepsFlag(db: Db, e: Event)
    requires SystemAdmin(db)
    ensures SystemAdmin(Step(db, e))
  {
    hide Served, LoadPerms, CodeShape, RowFor;
  }

  predicate VigilantThroughout(db: Db, es: seq<Event>)
    decreases |es|
  {
    Vigilant(db) && (es != [] ==> VigilantThroughout(Step(db, es[0]), es[1..]))
  }

  /** Traced back to the checks: throughout a run no Super Admin is suspended or about to be, if and only if
      the checks never let a promotion of a suspended user pass. */
  lemma {:induction false} VigilantThroughoutIff(db: Db, es: seq<Event>)
    requires SystemAdmin(db) && Vigilant(db)
    ensures VigilantThroughout(db, es) <==> NeverChecksSleeper(db, es)
    ensures VigilantThroughout(db, es) ==> AwakeThroughout(db, es)
    decreases |es|
  {
    hide Step, SystemAdmin, ChecksSleeper, AllAwake;
    if es != [] {
      StepKeepsFlag(db, es[0]);
      StepVigilantIff(db, es[0]);
      if Vigilant(Step(db, es[0])) {
        VigilantThroughoutIff(Step(db, es[0]), es[1..]);
      } else {
        NotVigilant(Step(db, es[0]), es[1..]);
      }
    }
  }

  lemma NotVigilant(db: Db, es: seq<Event>)
    requires !Vigilant(db)
    ensures !VigilantThroughout(db, es)
  {
  }
}
