/** What suspension promises over whole runs. */
module StaffSuspension {
  import opened Common
  import opened Staff
  import opened StaffGate
  import opened StaffRuns

  predicate Suspended(db: Db, user: nat) {
    user in db.users && db.users[user].disabled
  }

  /** The token's subject, or the admin behind an impersonation token. */
  predicate ActsFor(jwt: Jwt, user: nat) {
    jwt.subject == user || (jwt.impersonating && jwt.impersonator == user)
  }

  /** No request of a suspended user, or of a suspended admin impersonating somebody, passes the
      middleware, unless it is the one that stops an impersonation. */
  lemma SuspendedPassesOnlyStop(db: Db, user: nat, jwt: Jwt, route: Route)
    requires Suspended(db, user) && ActsFor(jwt, user)
    ensures Passes(db, jwt, route) <==> IsStopRequest(route)
  {
  }

  lemma EndsOtherwise(path: string, suffix: string)
    requires path != [] && suffix != [] && path[|path| - 1] != suffix[|suffix| - 1]
    ensures !HasSuffix(path, suffix)
  {
  }

  const STOP := "/stop-impersonation"

  /** None of the admin routes that change a table is mistaken for stop-impersonation. */
  lemma AdminRoutesAreNotStop(op: Op, id: string)
    ensures !IsStopRequest(RouteOf(op, id))
  {
    assert STOP[|STOP| - 1] == 'n';
    match op
    case CreateRole(_, _, _) =>
      var path := "/api/admin/roles";
      assert path[|path| - 1] == 's';
      EndsOtherwise(path, STOP);
    case SuspendUser(_) =>
      var tail := "/suspend";
      var path := "/api/admin/users/" + id + tail;
      assert path[|path| - 1] == tail[7] == 'd';
      EndsOtherwise(path, STOP);
    case UnsuspendUser(_) =>
      var tail := "/unsuspend";
      var path := "/api/admin/users/" + id + tail;
      assert path[|path| - 1] == tail[9] == 'd';
      EndsOtherwise(path, STOP);
    case _ =>
  }

  /** A save of an enabled row of the user. */
  predicate Unsuspends(db: Db, e: Event, user: nat) {
    Saves(db, e) && db.drafts[e.draft].user == user && !db.drafts[e.draft].row.disabled
  }

  predicate NeverUnsuspended(db: Db, es: seq<Event>, user: nat)
    decreases |es|
  {
    es != [] ==> !Unsuspends(db, es[0], user) && NeverUnsuspended(Step(db, es[0]), es[1..], user)
  }

  // ---------------------------------------------------------------- requests for tokens

  /** Requests of the user that passed the test for disabled accounts and have not issued tokens yet. */
  function PastTest(user: nat): Auth -> bool {
    (a: Auth) => a.user == user && (a.phase.Cleared? || a.phase.Issuing?)
  }

  function Past(db: Db, user: nat): nat {
    CountIf(db.auths, PastTest(user))
  }

  function CountIssued(db: Db, es: seq<Event>, user: nat): nat
    decreases |es|
  {
    if es == [] then 0 else One(IssuesTo(db, es[0], user)) + CountIssued(Step(db, es[0]), es[1..], user)
  }

  lemma MovePast(auths: seq<Auth>, a: nat, phase: AuthPhase, user: nat)
    requires a < |auths|
    ensures CountIf(Move(auths, a, phase), PastTest(user))
         == CountIf(auths, PastTest(user)) - One(PastTest(user)(auths[a]))
            + One(PastTest(user)(auths[a].(phase := phase)))
  {
    CountUpdate(auths, PastTest(user), a, auths[a].(phase := phase));
  }

  lemma CheckPast(db: Db, a: nat, user: nat)
    requires Suspended(db, user)
    ensures Past(StepCheck(db, a), user) == Past(db, user)
  {
    if a < |db.auths| && db.auths[a].phase.Found? {
      MovePast(db.auths, a, Ended, user);
      MovePast(db.auths, a, Cleared(db.auths[a].phase.token), user);
    }
  }

  lemma DeletePast(db: Db, a: nat, user: nat)
    ensures Past(StepDelete(db, a), user) == Past(db, user)
  {
    if a < |db.auths| { MovePast(db.auths, a, Issuing, user); }
  }

  lemma IssuePast(db: Db, a: nat, user: nat)
    ensures One(IssuesTo(db, IssueTokens(a), user)) + Past(StepIssue(db, a), user) == Past(db, user)
  {
    if a < |db.auths| { MovePast(db.auths, a, Ended, user); }
  }

  lemma NewPast(db: Db, e: Event, user: nat)
    requires Suspended(db, user) && (e.Register? || e.Login? || e.FindToken?)
    ensures Past(Step(db, e), user) == Past(db, user)
  {
    match e
    case Register(u) => CountAppend(db.auths, PastTest(user), Auth(u, Issuing));
    case Login(u, _) => CountAppend(db.auths, PastTest(user), Auth(u, Issuing));
    case FindToken(token) =>
      if token in db.tokens { CountAppend(db.auths, PastTest(user), Auth(db.tokens[token], Found(token))); }
    case _ =>
  }

  /** While the user is suspended nobody passes the test, and every pair issued uses one passed before. */
  lemma StepPast(db: Db, e: Event, user: nat)
    requires Suspended(db, user)
    ensures One(IssuesTo(db, e, user)) + Past(Step(db, e), user) == Past(db, user)
  {
    hide Apply, Served, StepCheck, StepDelete, StepIssue;
    match e
    case CheckUser(a) => CheckPast(db, a, user);
    case DeleteToken(a) => DeletePast(db, a, user);
    case IssueTokens(a) => IssuePast(db, a, user);
    case Handle(k) =>
      if k < |db.entries| { ApplyKeepsAuths(db, db.entries[k].op, db.entries[k].mayAssign); }
    case Register(_) => NewPast(db, e, user);
    case Login(_, _) => NewPast(db, e, user);
    case FindToken(_) => NewPast(db, e, user);
    case _ =>
  }

  lemma ApplyKeepsAuths(db: Db, op: Op, mayAssign: bool)
    ensures var next := Apply(db, op, mayAssign);
            next.auths == db.auths && next.entries == db.entries && next.tokens == db.tokens
  {
    hide Catalog, LoadPerms, CodeShape;
  }

  // ---------------------------------------------------------------- admin requests

  /** Admin requests acting for the user that passed the middleware and have not run yet. */
  function Acting(user: nat): Entry -> bool {
    (e: Entry) => e.waiting && ActsFor(e.jwt, user)
  }

  function Entered(db: Db, user: nat): nat {
    CountIf(db.entries, Acting(user))
  }

  predicate RunsFor(db: Db, e: Event, user: nat) {
    && e.Handle? && e.entry < |db.entries| && db.entries[e.entry].waiting
    && ActsFor(db.entries[e.entry].jwt, user)
  }

  function CountRun(db: Db, es: seq<Event>, user: nat): nat
    decreases |es|
  {
    if es == [] then 0 else One(RunsFor(db, es[0], user)) + CountRun(Step(db, es[0]), es[1..], user)
  }

  /** While the user is suspended no admin request acting for the user enters. */
  lemma StepEntered(db: Db, e: Event, user: nat)
    requires Suspended(db, user)
    ensures One(RunsFor(db, e, user)) + Entered(Step(db, e), user) == Entered(db, user)
  {
    hide Apply, IsStopRequest, RouteOf, PermsOf;
    match e
    case Enter(jwt, op, id) =>
      if Served(db, jwt, op, id) {
        AdminRoutesAreNotStop(op, id);
        var mayAssign := ROLE_ASSIGN in PermsOf(db, db.users[jwt.subject].role);
        CountAppend(db.entries, Acting(user), Entry(jwt, op, mayAssign, true));
      }
    case Handle(k) =>
      if k < |db.entries| {
        CountUpdate(db.entries, Acting(user), k, db.entries[k].(waiting := false));
      }
    case _ =>
  }

  // ---------------------------------------------------------------- runs

  /** A suspension ends exactly with a save of an enabled row of the user. */
  lemma SuspendedUntil(db: Db, e: Event, user: nat)
    requires Suspended(db, user)
    ensures Suspended(Step(db, e), user) <==> !Unsuspends(db, e, user)
  {
    hide Apply, Served, RowFor;
    if e.Handle? && e.entry < |db.entries| && !OnUser(db.entries[e.entry].op) {
      ApplyKeepsUsers(db, db.entries[e.entry].op, db.entries[e.entry].mayAssign);
    }
  }

  /** The checks of an unsuspend of the user run. */
  predicate ChecksUnsuspend(db: Db, e: Event, user: nat) {
    && e.Handle? && e.entry < |db.entries| && db.entries[e.entry].waiting
    && db.entries[e.entry].op == UnsuspendUser(user)
  }

  predicate NoUnsuspend(db: Db, es: seq<Event>, user: nat)
    decreases |es|
  {
    es != [] ==> !ChecksUnsuspend(db, es[0], user) && NoUnsuspend(Step(db, es[0]), es[1..], user)
  }

  /** A row read before the suspension waits to be saved for the user. */
  predicate EnabledPending(db: Db, user: nat) {
    exists d | d in db.drafts :: d.user == user && !d.row.disabled
  }

  /** Some run ends the suspension though nobody unsuspends the user. */
  ghost predicate CanEnd(db: Db, user: nat) {
    exists es :: NoUnsuspend(db, es, user) && !Suspended(Run(db, es), user)
  }

  lemma StepKeepsSuspended(db: Db, e: Event, user: nat)
    requires Suspended(db, user) && !EnabledPending(db, user) && !ChecksUnsuspend(db, e, user)
    ensures Suspended(Step(db, e), user) && !EnabledPending(Step(db, e), user)
  {
    hide Apply, Served, IsSystem;
    if Saves(db, e) {
      assert db.drafts[e.draft] in db.drafts;
      forall x | x in Step(db, e).drafts ensures x in db.drafts {}
    }
    if e.Handle? && e.entry < |db.entries| && !OnUser(db.entries[e.entry].op) {
      ApplyKeepsUsers(db, db.entries[e.entry].op, db.entries[e.entry].mayAssign);
    }
  }

  lemma {:induction false} RunKeepsSuspended(db: Db, es: seq<Event>, user: nat)
    requires Suspended(db, user) && !EnabledPending(db, user) && NoUnsuspend(db, es, user)
    ensures Suspended(Run(db, es), user)
    decreases |es|
  {
    hide Step, Suspended, EnabledPending, ChecksUnsuspend;
    if es != [] {
      StepKeepsSuspended(db, es[0], user);
      RunKeepsSuspended(Step(db, es[0]), es[1..], user);
    }
  }

  /** A suspension can end without an unsuspend of the user, in some run, if and only if a row of the user
      read before it waits to be saved. */
  lemma SuspensionEndsIff(db: Db, user: nat)
    requires Suspended(db, user)
    ensures CanEnd(db, user) <==> EnabledPending(db, user)
  {
    if EnabledPending(db, user) {
      var d :| 0 <= d < |db.drafts| && db.drafts[d].user == user && !db.drafts[d].row.disabled;
      RunOne(db, Save(d));
      assert NoUnsuspend(Step(db, Save(d)), [], user);
      assert NoUnsuspend(db, [Save(d)], user);
      assert !Suspended(Run(db, [Save(d)]), user);
    } else {
      forall es | NoUnsuspend(db, es, user) ensures Suspended(Run(db, es), user) {
        RunKeepsSuspended(db, es, user);
      }
    }
  }

  /** From the suspension until a step ends it, whatever other steps run: the user stays suspended;
      the token pairs issued to the user and the requests still able to issue one add up to those that had
      passed the test for disabled accounts when the suspension came; and likewise for admin requests
      acting for the user that had passed the middleware. */
  lemma {:induction false} SuspensionHolds(db: Db, es: seq<Event>, user: nat)
    requires Suspended(db, user) && NeverUnsuspended(db, es, user)
    ensures Suspended(Run(db, es), user)
    ensures CountIssued(db, es, user) + Past(Run(db, es), user) == Past(db, user)
    ensures CountRun(db, es, user) + Entered(Run(db, es), user) == Entered(db, user)
    decreases |es|
  {
    hide Step, Suspended, Unsuspends, Past, Entered, IssuesTo, RunsFor;
    if es != [] {
      StepPast(db, es[0], user);
      StepEntered(db, es[0], user);
      SuspendedUntil(db, es[0], user);
      SuspensionHolds(Step(db, es[0]), es[1..], user);
    }
  }

  /** Some run during the suspension hands the user tokens. */
  ghost predicate CanGetTokens(db: Db, user: nat) {
    exists es :: NeverUnsuspended(db, es, user) && CountIssued(db, es, user) > 0
  }

  /** The exact condition: a suspended user can still be issued tokens if and only if some request of the
      user had passed the test for disabled accounts when the suspension came. */
  lemma TokensAfterSuspensionIff(db: Db, user: nat)
    requires Suspended(db, user)
    ensures CanGetTokens(db, user) <==> Past(db, user) > 0
  {
    forall es | NeverUnsuspended(db, es, user) ensures CountIssued(db, es, user) <= Past(db, user) {
      SuspensionHolds(db, es, user);
    }
    if Past(db, user) > 0 {
      CountZero(db.auths, PastTest(user));
      var a :| 0 <= a < |db.auths| && PastTest(user)(db.auths[a]);
      LateIssue(db, user, a);
    }
  }

  lemma OneMore(db: Db, e: Event, es: seq<Event>, user: nat)
    ensures CountIssued(db, [e] + es, user) == One(IssuesTo(db, e, user)) + CountIssued(Step(db, e), es, user)
    ensures NeverUnsuspended(db, [e] + es, user)
        <==> !Unsuspends(db, e, user) && NeverUnsuspended(Step(db, e), es, user)
  {
    assert ([e] + es)[1..] == es;
  }

  /** A request past the test goes on to its end. */
  lemma LateIssue(db: Db, user: nat, a: nat)
    requires a < |db.auths| && PastTest(user)(db.auths[a])
    ensures CanGetTokens(db, user)
  {
    var issue := [IssueTokens(a)] + [];
    if db.auths[a].phase.Issuing? {
      assert db.auths[a] == Auth(user, Issuing);
      OneMore(db, IssueTokens(a), [], user);
      assert CountIssued(db, issue, user) > 0;
    } else {
      var next := Step(db, DeleteToken(a));
      assert next.auths[a] == Auth(user, Issuing);
      OneMore(next, IssueTokens(a), [], user);
      OneMore(db, DeleteToken(a), issue, user);
      assert CountIssued(db, [DeleteToken(a)] + issue, user) > 0;
    }
  }

  /** The same for every other authenticated request: after a suspension and any run that does not end it
      it passes the middleware only to stop an impersonation. */
  lemma SuspendedReachesOnlyStop(db: Db, es: seq<Event>, user: nat, jwt: Jwt, route: Route)
    requires Suspended(db, user) && ActsFor(jwt, user) && NeverUnsuspended(db, es, user)
    ensures Passes(Run(db, es), jwt, route) <==> IsStopRequest(route)
  {
    hide IsStopRequest, NeverUnsuspended, Run;
    SuspensionHolds(db, es, user);
    SuspendedPassesOnlyStop(Run(db, es), user, jwt, route);
  }

  /** Super Admins cannot be suspended, but a suspended user can be promoted; when the other holder then
      steps down, the only Super Admin left is suspended. */
  lemma OnlyHolderMaySleep(db: Db, boss: nat, sleeper: nat)
    requires Good(db) && Holders(db.users, ADMIN) == {boss}
    requires Suspended(db, sleeper) && sleeper != boss && db.users[sleeper].role == OWNER
    ensures var promoted := Try(db, UpdateUser(sleeper, false, Some(ADMIN)), true);
            && Try(db, SuspendUser(boss), true) == Err(CannotSuspendAdmin)
            && promoted.Ok?
            && var left := Try(promoted.value, UpdateUser(boss, false, Some(OWNER)), true);
               && left.Ok? && Good(left.value)
               && forall u | u in left.value.users && left.value.users[u].role == ADMIN :: left.value.users[u].disabled
  {
    hide Catalog, Ready, UsersOk, CustomOk, NamesOk;
    ReservedDiffer();
    assert boss in Holders(db.users, ADMIN);
    var promote := UpdateUser(sleeper, false, Some(ADMIN));
    ApplyKeepsGood(db, promote, true);
    var next := Apply(db, promote, true);
    assert OWNER != ADMIN && VIEWER != ADMIN;
    assert Holders(next.users, ADMIN) == {boss, sleeper};
    ApplyKeepsGood(next, UpdateUser(boss, false, Some(OWNER)), true);
    var last := next.users[boss := next.users[boss].(role := OWNER)];
    forall u | u in last && last[u].role == ADMIN ensures last[u].disabled {
      assert u in Holders(next.users, ADMIN);
    }
    assert |Holders(next.users, ADMIN)| == 2;
  }
}
