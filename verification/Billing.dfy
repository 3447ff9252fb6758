/** Subscription rows and the four handlers that change them: register, start trial, subscribe and
    cancel, with the two queries ("current" and "latest") they rely on. */
module Billing {
  import opened Common

  datatype Status = Active | Trialing | PastDue | Canceled

  datatype Sub = Sub(id: nat, user: nat, plan: string, status: Status, startsAt: int)

  const FREE := "free"
  const PRO_MONTHLY := "pro_monthly"
  const PRO_YEARLY := "pro_yearly"

  predicate TrialPlan(code: string) {
    code == PRO_MONTHLY || code == PRO_YEARLY
  }

  predicate Live(s: Sub) {
    s.status == Active || s.status == Trialing
  }

  // ---------------------------------------------------------------- queries

  predicate Eligible(s: Sub, user: nat, liveOnly: bool) {
    s.user == user && (liveOnly ==> Live(s))
  }

  /** Row `b` comes before row `a` in the query's order: newest start first; on a tie the "latest"
      query takes the higher id and the "current" query the lower. */
  predicate Overtakes(a: Sub, b: Sub, liveOnly: bool) {
    b.startsAt > a.startsAt || (b.startsAt == a.startsAt && (if liveOnly then b.id < a.id else b.id > a.id))
  }

  /** The index of the row that a query returns: "current" when `liveOnly`, else "latest". */
  function Pick(subs: seq<Sub>, user: nat, liveOnly: bool): (r: Option<nat>)
    ensures r.Some? ==> r.value < |subs| && Eligible(subs[r.value], user, liveOnly)
  {
    if subs == [] then None
    else
      var n := |subs| - 1;
      var rest := Pick(subs[..n], user, liveOnly);
      if Eligible(subs[n], user, liveOnly) && (rest.None? || Overtakes(subs[rest.value], subs[n], liveOnly))
      then Some(n) else rest
  }

  function Row(subs: seq<Sub>, at: Option<nat>): Option<Sub>
    requires at.Some? ==> at.value < |subs|
  {
    if at.Some? then Some(subs[at.value]) else None
  }

  function Current(subs: seq<Sub>, user: nat): Option<Sub> {
    Row(subs, Pick(subs, user, true))
  }

  function Latest(subs: seq<Sub>, user: nat): Option<Sub> {
    Row(subs, Pick(subs, user, false))
  }

  /** UPDATE ... ORDER BY starts_at DESC LIMIT 1: rewrites the user's latest row. */
  function Rewrite(subs: seq<Sub>, user: nat, plan: Option<string>, status: Status): seq<Sub> {
    match Pick(subs, user, false)
    case None => subs
    case Some(i) =>
      subs[i := subs[i].(plan := if plan.Some? then plan.value else subs[i].plan, status := status)]
  }

  // ---------------------------------------------------------------- handlers

  datatype Db = Db(
    users: set<nat>, subs: seq<Sub>, trialUsed: set<nat>, plans: set<string>, nextId: nat, clock: int)

  datatype Error = EmailExists | InvalidPlan | PlanNotFound | NotAuthenticated | TrialAlreadyUsed | NoSubscription

  datatype Result = Done(db: Db) | Rejected(error: Error)

  /** Users sign up through `Register`; the other handlers run behind the middleware that rejects
      tokens of unknown users. Every step happens `wait + 1` ticks after the one before, so start times are distinct. */
  datatype Op =
    | Register(user: nat, rowOk: bool, wait: nat)
    | StartTrial(user: nat, plan: string, flagOk: bool, wait: nat)
    | Subscribe(user: nat, plan: string, wait: nat)
    | Cancel(user: nat, wait: nat)

  function Insert(db: Db, user: nat, plan: string, status: Status, now: int): Db {
    db.(subs := db.subs + [Sub(db.nextId, user, plan, status, now)], nextId := db.nextId + 1, clock := now)
  }

  function TryRegister(db: Db, user: nat, rowOk: bool, now: int): Result {
    if user in db.users then Rejected(EmailExists)
    else
      var created := db.(users := db.users + {user}, clock := now);
      Done(if rowOk then Insert(created, user, FREE, Active, now) else created)
  }

  function TryStartTrial(db: Db, user: nat, plan: string, flagOk: bool, now: int): Result {
    if user !in db.users then Rejected(NotAuthenticated)
    else if !TrialPlan(plan) then Rejected(InvalidPlan)
    else if plan !in db.plans then Rejected(PlanNotFound)
    else if user in db.trialUsed then Rejected(TrialAlreadyUsed)
    else
      var started :=
        if Latest(db.subs, user).None? then Insert(db, user, plan, Trialing, now)
        else db.(subs := Rewrite(db.subs, user, Some(plan), Trialing), clock := now);
      Done(if flagOk then started.(trialUsed := db.trialUsed + {user}) else started)
  }

  function TrySubscribe(db: Db, user: nat, plan: string, now: int): Result {
    if user !in db.users then Rejected(NotAuthenticated)
    else if !TrialPlan(plan) then Rejected(InvalidPlan)
    else if plan !in db.plans then Rejected(PlanNotFound)
    else if Current(db.subs, user).None? then Done(Insert(db, user, plan, Active, now))
    else Done(db.(subs := Rewrite(db.subs, user, Some(plan), Active), clock := now))
  }

  function TryCancel(db: Db, user: nat, now: int): Result {
    if user !in db.users then Rejected(NotAuthenticated)
    else if Latest(db.subs, user).None? then Rejected(NoSubscription)
    else Done(db.(subs := Rewrite(db.subs, user, None, Canceled), clock := now))
  }

  function Try(db: Db, op: Op): Result {
    var now := db.clock + 1 + op.wait;
    match op
    case Register(user, rowOk, _) => TryRegister(db, user, rowOk, now)
    case StartTrial(user, plan, flagOk, _) => TryStartTrial(db, user, plan, flagOk, now)
    case Subscribe(user, plan, _) => TrySubscribe(db, user, plan, now)
    case Cancel(user, _) => TryCancel(db, user, now)
  }

  function Step(db: Db, op: Op): Db {
    match Try(db, op) case Done(next) => next case Rejected(_) => db
  }

  function Run(db: Db, ops: seq<Op>): Db
    decreases |ops|
  {
    if ops == [] then db else Run(Step(db, ops[0]), ops[1..])
  }

  /** `ResolveSubscription`: the code of the plan the user is entitled to, None when its row is missing. */
  function Resolve(db: Db, user: nat): Option<string> {
    var code := match Current(db.subs, user) case Some(s) => s.plan case None => FREE;
    if code in db.plans then Some(code) else None
  }

  // ---------------------------------------------------------------- in place

  class BillingStore {
    var users: set<nat>
    var subs: seq<Sub>
    var trialUsed: set<nat>
    var nextId: nat
    var clock: int
    const plans: set<string>

    function View(): Db
      reads this
    {
      Db(users, subs, trialUsed, plans, nextId, clock)
    }

    constructor (plans: set<string>)
      ensures View() == Db({}, [], {}, plans, 0, 0)
    {
      this.plans := plans;
      users, subs, trialUsed, nextId, clock := {}, [], {}, 0, 0;
    }

    method Find(user: nat, liveOnly: bool) returns (at: Option<nat>)
      ensures at == Pick(subs, user, liveOnly)
    {
      at := None;
      var i := 0;
      while i < |subs|
        invariant i <= |subs| && at == Pick(subs[..i], user, liveOnly)
      {
        assert subs[..i + 1][..i] == subs[..i];
        if Eligible(subs[i], user, liveOnly) && (at.None? || Overtakes(subs[at.value], subs[i], liveOnly)) {
          at := Some(i);
        }
        i := i + 1;
      }
      assert subs[..i] == subs;
    }

    method Create(user: nat, plan: string, status: Status, now: int)
      modifies this`subs, this`nextId
      ensures View() == Insert(old(View()), user, plan, status, now).(clock := clock)
    {
      subs := subs + [Sub(nextId, user, plan, status, now)];
      nextId := nextId + 1;
    }

    method UpdateLatest(user: nat, plan: Option<string>, status: Status)
      modifies this`subs
      ensures subs == Rewrite(old(subs), user, plan, status)
    {
      var at := Find(user, false);
      if at.Some? {
        var row := subs[at.value];
        if plan.Some? {
          row := row.(plan := plan.value);
        }
        row := row.(status := status);
        subs := subs[at.value := row];
      }
    }

    method DoRegister(user: nat, rowOk: bool, wait: nat) returns (error: Option<Error>)
      modifies this
      ensures match Try(old(View()), Register(user, rowOk, wait))
              case Done(db) => error.None? && View() == db
              case Rejected(e) => error == Some(e) && View() == old(View())
    {
      if user in users {
        return Some(EmailExists);
      }
      users := users + {user};
      clock := clock + 1 + wait;
      if rowOk {
        Create(user, FREE, Active, clock);
      }
      error := None;
    }

    method DoStartTrial(user: nat, plan: string, flagOk: bool, wait: nat) returns (error: Option<Error>)
      modifies this
      ensures match Try(old(View()), StartTrial(user, plan, flagOk, wait))
              case Done(db) => error.None? && View() == db
              case Rejected(e) => error == Some(e) && View() == old(View())
    {
      if user !in users {
        return Some(NotAuthenticated);
      }
      if !TrialPlan(plan) {
        return Some(InvalidPlan);
      }
      if plan !in plans {
        return Some(PlanNotFound);
      }
      if user in trialUsed {
        return Some(TrialAlreadyUsed);
      }
      var existing := Find(user, false);
      clock := clock + 1 + wait;
      if existing.None? {
        Create(user, plan, Trialing, clock);
      } else {
        UpdateLatest(user, Some(plan), Trialing);
      }
      if flagOk {
        trialUsed := trialUsed + {user};
      }
      error := None;
    }

    method DoSubscribe(user: nat, plan: string, wait: nat) returns (error: Option<Error>)
      modifies this
      ensures match Try(old(View()), Subscribe(user, plan, wait))
              case Done(db) => error.None? && View() == db
              case Rejected(e) => error == Some(e) && View() == old(View())
    {
      if user !in users {
        return Some(NotAuthenticated);
      }
      if !TrialPlan(plan) {
        return Some(InvalidPlan);
      }
      if plan !in plans {
        return Some(PlanNotFound);
      }
      var existing := Find(user, true);
      clock := clock + 1 + wait;
      if existing.None? {
        Create(user, plan, Active, clock);
      } else {
        UpdateLatest(user, Some(plan), Active);
      }
      error := None;
    }

    method DoCancel(user: nat, wait: nat) returns (error: Option<Error>)
      modifies this
      ensures match Try(old(View()), Cancel(user, wait))
              case Done(db) => error.None? && View() == db
              case Rejected(e) => error == Some(e) && View() == old(View())
    {
      if user !in users {
        return Some(NotAuthenticated);
      }
      var existing := Find(user, false);
      if existing.None? {
        return Some(NoSubscription);
      }
      clock := clock + 1 + wait;
      UpdateLatest(user, None, Canceled);
      error := None;
    }
  }

  // ---------------------------------------------------------------- invariant

  /** The invariant nobody states: rows are stored in order of their starts, and of one user's rows
      all but the last are canceled. */
  predicate Inv(db: Db) {
    && (forall i, j | 0 <= i < j < |db.subs| :: db.subs[i].startsAt < db.subs[j].startsAt)
    && (forall i | 0 <= i < |db.subs| :: db.subs[i].startsAt <= db.clock && db.subs[i].status != PastDue)
    && (forall i, j | 0 <= i < j < |db.subs| && db.subs[i].user == db.subs[j].user ::
          db.subs[i].status == Canceled)
    && (forall i | 0 <= i < |db.subs| :: db.subs[i].user in db.users)
    && db.trialUsed <= db.users
  }

  /** Among eligible rows the last one is picked. */
  lemma {:induction false} PickIsLast(subs: seq<Sub>, user: nat, liveOnly: bool)
    requires forall i, j | 0 <= i < j < |subs| :: subs[i].startsAt < subs[j].startsAt
    ensures var r := Pick(subs, user, liveOnly);
            && (forall i | 0 <= i < |subs| && Eligible(subs[i], user, liveOnly) :: r.Some? && i <= r.value)
    decreases |subs|
  {
    if subs != [] {
      var init := subs[..|subs| - 1];
      PickIsLast(init, user, liveOnly);
      forall i | 0 <= i < |subs| && Eligible(subs[i], user, liveOnly)
        ensures Pick(subs, user, liveOnly).Some? && i <= Pick(subs, user, liveOnly).value
      {
        if i < |subs| - 1 { assert init[i] == subs[i]; }
      }
    }
  }

  lemma PickIs(subs: seq<Sub>, user: nat, liveOnly: bool, i: nat)
    requires forall i, j | 0 <= i < j < |subs| :: subs[i].startsAt < subs[j].startsAt
    requires i < |subs| && Eligible(subs[i], user, liveOnly)
    requires forall j | i < j < |subs| :: !Eligible(subs[j], user, liveOnly)
    ensures Pick(subs, user, liveOnly) == Some(i)
  {
    PickIsLast(subs, user, liveOnly);
  }

  lemma PickNone(subs: seq<Sub>, user: nat, liveOnly: bool)
    requires forall j | 0 <= j < |subs| :: !Eligible(subs[j], user, liveOnly)
    ensures Pick(subs, user, liveOnly) == None
  {
  }

  /** "Current" and "latest" agree: the current row is the latest row, when that one is live. */
  lemma CurrentIsLatest(db: Db, user: nat)
    requires Inv(db)
    ensures Current(db.subs, user)
         == if Latest(db.subs, user).Some? && Live(Latest(db.subs, user).value) then Latest(db.subs, user) else None
  {
    PickIsLast(db.subs, user, false);
    PickIsLast(db.subs, user, true);
    var latest := Pick(db.subs, user, false);
    if latest.Some? && Live(db.subs[latest.value]) {
      PickIs(db.subs, user, true, latest.value);
    } else {
      PickNone(db.subs, user, true);
    }
  }

  lemma InsertKeepsInv(db: Db, user: nat, plan: string, status: Status, now: int)
    requires Inv(db) && now > db.clock && status != PastDue && user in db.users
    requires Current(db.subs, user).None?
    ensures Inv(Insert(db, user, plan, status, now))
  {
    PickIsLast(db.subs, user, true);
    forall i | 0 <= i < |db.subs| && db.subs[i].user == user ensures db.subs[i].status == Canceled {
      assert !Eligible(db.subs[i], user, true);
    }
  }

  lemma RewriteKeepsInv(db: Db, user: nat, plan: Option<string>, status: Status, now: int)
    requires Inv(db) && now > db.clock && status != PastDue
    ensures Inv(db.(subs := Rewrite(db.subs, user, plan, status), clock := now))
  {
    PickIsLast(db.subs, user, false);
  }

  lemma NoRowsNoCurrent(db: Db, user: nat)
    requires Latest(db.subs, user).None? && Inv(db)
    ensures Current(db.subs, user).None?
  {
    CurrentIsLatest(db, user);
  }

  predicate Keeps(r: Result) {
    r.Done? ==> Inv(r.db)
  }

  lemma RegisterKeepsInv(db: Db, user: nat, rowOk: bool, now: int)
    requires Inv(db) && now > db.clock
    ensures Keeps(TryRegister(db, user, rowOk, now))
  {
    if user !in db.users {
      var created := db.(users := db.users + {user}, clock := now);
      assert Inv(created);
      PickNone(db.subs, user, true);
      InsertKeepsInv(db.(users := db.users + {user}), user, FREE, Active, now);
    }
  }

  lemma StartTrialKeepsInv(db: Db, user: nat, plan: string, flagOk: bool, now: int)
    requires Inv(db) && now > db.clock
    ensures Keeps(TryStartTrial(db, user, plan, flagOk, now))
  {
    if user in db.users {
      if Latest(db.subs, user).None? {
        NoRowsNoCurrent(db, user);
        InsertKeepsInv(db, user, plan, Trialing, now);
        FlagKeepsInv(Insert(db, user, plan, Trialing, now), user);
      } else {
        RewriteKeepsInv(db, user, Some(plan), Trialing, now);
        FlagKeepsInv(db.(subs := Rewrite(db.subs, user, Some(plan), Trialing), clock := now), user);
      }
    }
  }

  lemma FlagKeepsInv(db: Db, user: nat)
    requires Inv(db) && user in db.users
    ensures Inv(db.(trialUsed := db.trialUsed + {user}))
  {
  }

  lemma SubscribeKeepsInv(db: Db, user: nat, plan: string, now: int)
    requires Inv(db) && now > db.clock
    ensures Keeps(TrySubscribe(db, user, plan, now))
  {
    if user in db.users {
      if Current(db.subs, user).None? {
        InsertKeepsInv(db, user, plan, Active, now);
      } else {
        RewriteKeepsInv(db, user, Some(plan), Active, now);
      }
    }
  }

  lemma CancelKeepsInv(db: Db, user: nat, now: int)
    requires Inv(db) && now > db.clock
    ensures Keeps(TryCancel(db, user, now))
  {
    RewriteKeepsInv(db, user, None, Canceled, now);
  }

  lemma TryKeepsInv(db: Db, op: Op)
    requires Inv(db)
    ensures Keeps(Try(db, op))
  {
    hide TryRegister, TryStartTrial, TrySubscribe, TryCancel, Inv, Keeps;
    var now := db.clock + 1 + op.wait;
    match op
    case Register(user, rowOk, _) => RegisterKeepsInv(db, user, rowOk, now);
    case StartTrial(user, plan, flagOk, _) => StartTrialKeepsInv(db, user, plan, flagOk, now);
    case Subscribe(user, plan, _) => SubscribeKeepsInv(db, user, plan, now);
    case Cancel(user, _) => CancelKeepsInv(db, user, now);
  }

  lemma StepKeepsInv(db: Db, op: Op)
    requires Inv(db)
    ensures Inv(Step(db, op))
  {
    TryKeepsInv(db, op);
  }

  predicate Start(db: Db) {
    db.users == {} && db.subs == [] && db.trialUsed == {}
  }

  lemma {:induction false} RunKeepsInv(db: Db, ops: seq<Op>)
    requires Inv(db)
    ensures Inv(Run(db, ops))
    decreases |ops|
  {
    if ops != [] {
      StepKeepsInv(db, ops[0]);
      RunKeepsInv(Step(db, ops[0]), ops[1..]);
    }
  }

  /** In every run from an empty table the two queries agree for every user. */
  lemma QueriesAgree(db: Db, ops: seq<Op>, user: nat)
    requires Start(db)
    ensures var subs := Run(db, ops).subs;
            Current(subs, user)
            == if Latest(subs, user).Some? && Live(Latest(subs, user).value) then Latest(subs, user) else None
  {
    RunKeepsInv(db, ops);
    CurrentIsLatest(Run(db, ops), user);
  }

  // ---------------------------------------------------------------- entitlements

  /** The row a handler writes for `user` becomes the latest one; other users' rows stay theirs. */
  lemma InsertIsLatest(db: Db, user: nat, plan: string, status: Status, now: int, other: nat)
    requires Inv(db) && now > db.clock
    ensures var next := Insert(db, user, plan, status, now);
            && Latest(next.subs, user) == Some(Sub(db.nextId, user, plan, status, now))
            && (other != user ==> Latest(next.subs, other) == Latest(db.subs, other))
  {
    var next := Insert(db, user, plan, status, now);
    assert next.subs[..|next.subs| - 1] == db.subs;
  }

  lemma RewriteIsLatest(db: Db, user: nat, plan: Option<string>, status: Status, other: nat)
    requires Inv(db) && Latest(db.subs, user).Some?
    ensures var subs := Rewrite(db.subs, user, plan, status);
            var row := Latest(db.subs, user).value;
            && Latest(subs, user) == Some(row.(plan := if plan.Some? then plan.value else row.plan, status := status))
            && (other != user ==> Latest(subs, other) == Latest(db.subs, other))
  {
    var i := Pick(db.subs, user, false).value;
    var subs := Rewrite(db.subs, user, plan, status);
    PickIsLast(db.subs, user, false);
    PickIs(subs, user, false, i);
    if other != user {
      PickIsLast(db.subs, other, false);
      match Pick(db.subs, other, false) {
        case Some(j) => PickIs(subs, other, false, j);
        case None => PickNone(subs, other, false);
      }
    }
  }

  /** What a successful handler leaves as its user's latest row; nobody else's changes. */
  predicate Wrote(before: Db, r: Result, user: nat, plan: string, status: Status, other: nat) {
    r.Done? ==>
      && Latest(r.db.subs, other) == Latest(before.subs, other)
      && r.db.plans == before.plans
      && var latest := Latest(r.db.subs, user);
         latest.Some? && latest.value.status == status && (status == Canceled || latest.value.plan == plan)
  }

  lemma StartTrialWrites(db: Db, user: nat, plan: string, flagOk: bool, now: int, other: nat)
    requires Inv(db) && now > db.clock && other != user
    ensures Wrote(db, TryStartTrial(db, user, plan, flagOk, now), user, plan, Trialing, other)
  {
    if Latest(db.subs, user).None? {
      InsertIsLatest(db, user, plan, Trialing, now, other);
    } else {
      RewriteIsLatest(db, user, Some(plan), Trialing, other);
    }
  }

  lemma SubscribeWrites(db: Db, user: nat, plan: string, now: int, other: nat)
    requires Inv(db) && now > db.clock && other != user
    ensures Wrote(db, TrySubscribe(db, user, plan, now), user, plan, Active, other)
  {
    if Current(db.subs, user).None? {
      InsertIsLatest(db, user, plan, Active, now, other);
    } else {
      CurrentIsLatest(db, user);
      RewriteIsLatest(db, user, Some(plan), Active, other);
    }
  }

  lemma CancelWrites(db: Db, user: nat, now: int, other: nat)
    requires Inv(db) && now > db.clock && other != user
    ensures Wrote(db, TryCancel(db, user, now), user, FREE, Canceled, other)
  {
    if Latest(db.subs, user).Some? {
      RewriteIsLatest(db, user, None, Canceled, other);
    }
  }

  lemma RegisterWrites(db: Db, user: nat, rowOk: bool, now: int, other: nat)
    requires Inv(db) && now > db.clock && other != user
    ensures var r := TryRegister(db, user, rowOk, now);
            if rowOk then Wrote(db, r, user, FREE, Active, other)
            else r.Done? ==> r.db.subs == db.subs && r.db.plans == db.plans && Latest(db.subs, user).None?
  {
    if user !in db.users {
      PickNone(db.subs, user, false);
      InsertIsLatest(db.(users := db.users + {user}), user, FREE, Active, now, other);
    }
  }

  lemma LatestDecides(db: Db, user: nat)
    requires Inv(db)
    ensures var latest := Latest(db.subs, user);
            var code := if latest.Some? && Live(latest.value) then latest.value.plan else FREE;
            Resolve(db, user) == if code in db.plans then Some(code) else None
  {
    CurrentIsLatest(db, user);
  }

  /** A successful result entitles `user` to `plan` and leaves `other` with what it had. */
  predicate Entitles(before: Db, r: Result, user: nat, plan: string, other: nat) {
    r.Done? ==> Resolve(r.db, user) == Some(plan) && Resolve(r.db, other) == Resolve(before, other)
  }

  lemma WroteEntitles(before: Db, r: Result, user: nat, plan: string, status: Status, other: nat)
    requires Inv(before) && Keeps(r) && plan in before.plans
    requires status != PastDue && (status == Canceled ==> plan == FREE)
    requires Wrote(before, r, user, plan, status, other)
    ensures Entitles(before, r, user, plan, other)
  {
    if r.Done? {
      LatestDecides(before, other);
      LatestDecides(r.db, user);
      LatestDecides(r.db, other);
    }
  }

  lemma RegisterEntitles(db: Db, user: nat, rowOk: bool, now: int, other: nat)
    requires Inv(db) && FREE in db.plans && now > db.clock && other != user
    ensures Entitles(db, TryRegister(db, user, rowOk, now), user, FREE, other)
  {
    var r := TryRegister(db, user, rowOk, now);
    RegisterKeepsInv(db, user, rowOk, now);
    RegisterWrites(db, user, rowOk, now, other);
    if rowOk {
      WroteEntitles(db, r, user, FREE, Active, other);
    } else if r.Done? {
      LatestDecides(r.db, user);
    }
  }

  lemma StartTrialEntitles(db: Db, user: nat, plan: string, flagOk: bool, now: int, other: nat)
    requires Inv(db) && now > db.clock && other != user
    ensures Entitles(db, TryStartTrial(db, user, plan, flagOk, now), user, plan, other)
  {
    StartTrialKeepsInv(db, user, plan, flagOk, now);
    StartTrialWrites(db, user, plan, flagOk, now, other);
    if plan in db.plans {
      WroteEntitles(db, TryStartTrial(db, user, plan, flagOk, now), user, plan, Trialing, other);
    }
  }

  lemma SubscribeEntitles(db: Db, user: nat, plan: string, now: int, other: nat)
    requires Inv(db) && now > db.clock && other != user
    ensures Entitles(db, TrySubscribe(db, user, plan, now), user, plan, other)
  {
    SubscribeKeepsInv(db, user, plan, now);
    SubscribeWrites(db, user, plan, now, other);
    if plan in db.plans {
      WroteEntitles(db, TrySubscribe(db, user, plan, now), user, plan, Active, other);
    }
  }

  lemma CancelEntitles(db: Db, user: nat, now: int, other: nat)
    requires Inv(db) && FREE in db.plans && now > db.clock && other != user
    ensures Entitles(db, TryCancel(db, user, now), user, FREE, other)
  {
    CancelKeepsInv(db, user, now);
    CancelWrites(db, user, now, other);
    WroteEntitles(db, TryCancel(db, user, now), user, FREE, Canceled, other);
  }

  /** The plan a successful step promises its user. */
  function Promised(op: Op): string {
    match op
    case Register(_, _, _) => FREE
    case StartTrial(_, plan, _, _) => plan
    case Subscribe(_, plan, _) => plan
    case Cancel(_, _) => FREE
  }

  lemma TryEntitles(db: Db, op: Op, other: nat)
    requires Inv(db) && FREE in db.plans && other != op.user
    ensures Entitles(db, Try(db, op), op.user, Promised(op), other)
  {
    hide TryRegister, TryStartTrial, TrySubscribe, TryCancel, Inv;
    var now := db.clock + 1 + op.wait;
    match op
    case Register(user, rowOk, _) => RegisterEntitles(db, user, rowOk, now, other);
    case StartTrial(user, plan, flagOk, _) => StartTrialEntitles(db, user, plan, flagOk, now, other);
    case Subscribe(user, plan, _) => SubscribeEntitles(db, user, plan, now, other);
    case Cancel(user, _) => CancelEntitles(db, user, now, other);
  }

  /** What the handlers promise about entitlements: a successful subscribe or trial entitles the user
      to exactly the requested plan, a registration or cancel to the free plan, and no step changes
      anyone else's. */
  lemma Entitlements(db: Db, op: Op, other: nat)
    requires Inv(db) && FREE in db.plans && other != op.user
    ensures Try(db, op).Done? ==> Resolve(Step(db, op), op.user) == Some(Promised(op))
    ensures Resolve(Step(db, op), other) == Resolve(db, other)
  {
    TryEntitles(db, op, other);
  }

  /** The plan promised by the user's last successful step of a run, `plan` when there is none. */
  function LastPromise(db: Db, ops: seq<Op>, user: nat, plan: string): string
    decreases |ops|
  {
    if ops == [] then plan
    else
      var mine := ops[0].user == user && Try(db, ops[0]).Done?;
      LastPromise(Step(db, ops[0]), ops[1..], user, if mine then Promised(ops[0]) else plan)
  }

  lemma OwnStepEntitles(db: Db, op: Op)
    requires Inv(db) && FREE in db.plans
    ensures Try(db, op).Done? ==> Resolve(Step(db, op), op.user) == Some(Promised(op))
    ensures Try(db, op).Rejected? ==> Step(db, op) == db
  {
    hide Inv, Try;
    Entitlements(db, op, op.user + 1);
  }

  lemma StepKeepsPlans(db: Db, op: Op)
    ensures Step(db, op).plans == db.plans
  {
  }

  /** In every run a user is entitled to exactly what the user's last successful step asked for,
      whatever everybody else did. */
  lemma {:induction false} RunEntitles(db: Db, ops: seq<Op>, user: nat, plan: string)
    requires Inv(db) && FREE in db.plans && Resolve(db, user) == Some(plan)
    ensures Resolve(Run(db, ops), user) == Some(LastPromise(db, ops, user, plan))
    decreases |ops|
  {
    hide Inv, Try;
    if ops != [] {
      var op := ops[0];
      StepKeepsInv(db, op);
      StepKeepsPlans(db, op);
      if op.user == user {
        OwnStepEntitles(db, op);
      } else {
        Entitlements(db, op, user);
      }
      var mine := op.user == user && Try(db, op).Done?;
      RunEntitles(Step(db, op), ops[1..], user, if mine then Promised(op) else plan);
    }
  }

  /** The handler's comment promises a conflict for users with a live subscription; the code asks only
      whether the trial was used, so a paying user's active row is turned into a trial. */
  lemma TrialReplacesPaidPlan(db: Db, user: nat, plan: string, wait: nat)
    requires Inv(db) && user in db.users && TrialPlan(plan) && plan in db.plans
    requires Current(db.subs, user).Some? && Current(db.subs, user).value.status == Active
    ensures Try(db, StartTrial(user, plan, true, wait)).Done? <==> user !in db.trialUsed
    ensures user !in db.trialUsed ==>
              var latest := Latest(Step(db, StartTrial(user, plan, true, wait)).subs, user);
              && latest.Some? && latest.value.status == Trialing
              && latest.value.id == Current(db.subs, user).value.id
  {
    CurrentIsLatest(db, user);
    RewriteIsLatest(db, user, Some(plan), Trialing, user);
  }

  // ---------------------------------------------------------------- one trial

  predicate TrialBy(db: Db, op: Op, user: nat) {
    op.StartTrial? && op.user == user && Try(db, op).Done?
  }

  /** Successful trials of one user in a run, and those among them whose flag write failed. */
  function Trials(db: Db, ops: seq<Op>, user: nat): nat
    decreases |ops|
  {
    if ops == [] then 0
    else (if TrialBy(db, ops[0], user) then 1 else 0) + Trials(Step(db, ops[0]), ops[1..], user)
  }

  function FlagFailures(db: Db, ops: seq<Op>, user: nat): nat
    decreases |ops|
  {
    if ops == [] then 0
    else (if TrialBy(db, ops[0], user) && !ops[0].flagOk then 1 else 0)
         + FlagFailures(Step(db, ops[0]), ops[1..], user)
  }

  /** A user starts at most one trial, plus one for every time the flag could not be written. */
  lemma {:induction false} OneTrial(db: Db, ops: seq<Op>, user: nat)
    ensures Trials(db, ops, user) <= (if user in db.trialUsed then 0 else 1) + FlagFailures(db, ops, user)
    decreases |ops|
  {
    if ops != [] {
      OneTrial(Step(db, ops[0]), ops[1..], user);
    }
  }
}
