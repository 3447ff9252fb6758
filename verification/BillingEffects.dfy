/** When each subscription handler succeeds, which refusal it gives otherwise, and what it leaves in the table. */
module BillingEffects {
  import opened Common
  import opened Billing

  /** The plans that can be bought or tried. */
  predicate Bookable(db: Db, plan: string) {
    (plan == "pro_monthly" || plan == "pro_yearly") && plan in db.plans
  }

  predicate HasRow(db: Db, user: nat) {
    exists i | 0 <= i < |db.subs| :: db.subs[i].user == user
  }

  predicate HasLive(db: Db, user: nat) {
    exists i | 0 <= i < |db.subs| :: db.subs[i].user == user && Live(db.subs[i])
  }

  /** Other users' rows stay; the user's keep their ids and start dates; at most new ones are appended, now. */
  predicate OnlyRowsOf(db: Db, next: Db, user: nat, now: int) {
    && |db.subs| <= |next.subs| && next.plans == db.plans && next.clock == now
    && (forall i | 0 <= i < |db.subs| && db.subs[i].user != user :: next.subs[i] == db.subs[i])
    && (forall i | 0 <= i < |db.subs| :: next.subs[i].user == db.subs[i].user && next.subs[i].id == db.subs[i].id
                                         && next.subs[i].startsAt == db.subs[i].startsAt)
    && forall i | |db.subs| <= i < |next.subs| :: next.subs[i].user == user && next.subs[i].startsAt == now
  }

  lemma {:induction false} PickFinds(subs: seq<Sub>, user: nat, liveOnly: bool)
    ensures Pick(subs, user, liveOnly).Some? <==> exists i | 0 <= i < |subs| :: Eligible(subs[i], user, liveOnly)
    decreases |subs|
  {
    if subs != [] {
      var init := subs[..|subs| - 1];
      PickFinds(init, user, liveOnly);
      forall i | 0 <= i < |init| ensures init[i] == subs[i] {}
    }
  }

  lemma LatestIff(db: Db, user: nat)
    ensures Latest(db.subs, user).Some? <==> HasRow(db, user)
    ensures Current(db.subs, user).Some? <==> HasLive(db, user)
  {
    PickFinds(db.subs, user, false);
    PickFinds(db.subs, user, true);
    if HasRow(db, user) {
      var i :| 0 <= i < |db.subs| && db.subs[i].user == user;
      assert Eligible(db.subs[i], user, false);
    }
    if HasLive(db, user) {
      var i :| 0 <= i < |db.subs| && db.subs[i].user == user && Live(db.subs[i]);
      assert Eligible(db.subs[i], user, true);
    }
  }

  lemma InsertAdds(db: Db, user: nat, plan: string, status: Status, now: int)
    requires Inv(db) && now > db.clock
    ensures var next := Insert(db, user, plan, status, now);
            && OnlyRowsOf(db, next, user, now) && |next.subs| == |db.subs| + 1
            && Latest(next.subs, user) == Some(Sub(db.nextId, user, plan, status, now))
            && next.users == db.users && next.trialUsed == db.trialUsed
  {
    InsertIsLatest(db, user, plan, status, now, user + 1);
  }

  lemma RewriteUpdates(db: Db, user: nat, plan: Option<string>, status: Status, now: int)
    requires Inv(db) && HasRow(db, user)
    ensures var next := db.(subs := Rewrite(db.subs, user, plan, status), clock := now);
            && OnlyRowsOf(db, next, user, now) && |next.subs| == |db.subs|
            && Latest(db.subs, user).Some?
            && var row := Latest(db.subs, user).value;
               Latest(next.subs, user)
               == Some(row.(plan := if plan.Some? then plan.value else row.plan, status := status))
  {
    LatestIff(db, user);
    RewriteIsLatest(db, user, plan, status, user + 1);
  }

  /** The user's current row after a successful step. */
  predicate Holds(db: Db, user: nat, plan: string, status: Status) {
    var row := Current(db.subs, user);
    row.Some? && row.value.plan == plan && row.value.status == status
  }

  lemma LatestIsCurrent(db: Db, user: nat)
    requires Inv(db) && Latest(db.subs, user).Some?
    ensures if Live(Latest(db.subs, user).value) then Current(db.subs, user) == Latest(db.subs, user)
            else Current(db.subs, user).None?
  {
    CurrentIsLatest(db, user);
  }

  // ---------------------------------------------------------------- subscribe

  /** A subscription succeeds for every known user with a bookable plan, whatever rows there are: a live row is
      changed in place, else one is added. */
  lemma SubscribeSucceedsIff(db: Db, user: nat, plan: string, wait: nat)
    requires Inv(db)
    ensures var r := Try(db, Subscribe(user, plan, wait));
            && (r.Done? <==> user in db.users && Bookable(db, plan))
            && (r == Rejected(NotAuthenticated) <==> user !in db.users)
            && (r == Rejected(InvalidPlan) <==> user in db.users && plan != "pro_monthly" && plan != "pro_yearly")
            && (r == Rejected(PlanNotFound) <==>
                  user in db.users && (plan == "pro_monthly" || plan == "pro_yearly") && plan !in db.plans)
            && (r.Done? ==>
                  && Holds(r.db, user, plan, Active) && OnlyRowsOf(db, r.db, user, db.clock + 1 + wait)
                  && |r.db.subs| == |db.subs| + (if HasLive(db, user) then 0 else 1)
                  && r.db.users == db.users && r.db.trialUsed == db.trialUsed)
  {
    hide Inv, Rewrite;
    var now := db.clock + 1 + wait;
    var r := Try(db, Subscribe(user, plan, wait));
    LatestIff(db, user);
    SubscribeKeepsInv(db, user, plan, now);
    if r.Done? {
      if HasLive(db, user) {
        LiveHasRow(db, user);
        RewriteUpdates(db, user, Some(plan), Active, now);
      } else {
        InsertAdds(db, user, plan, Active, now);
      }
      LatestIsCurrent(r.db, user);
    }
  }

  lemma LiveHasRow(db: Db, user: nat)
    ensures HasLive(db, user) ==> HasRow(db, user)
  {
  }

  // ---------------------------------------------------------------- trial

  /** A trial succeeds for every known user with a bookable plan who has not used one. */
  lemma TrialSucceedsIff(db: Db, user: nat, plan: string, flagOk: bool, wait: nat)
    ensures var r := Try(db, StartTrial(user, plan, flagOk, wait));
            && (r.Done? <==> user in db.users && Bookable(db, plan) && user !in db.trialUsed)
            && (r == Rejected(NotAuthenticated) <==> user !in db.users)
            && (r == Rejected(InvalidPlan) <==> user in db.users && plan != "pro_monthly" && plan != "pro_yearly")
            && (r == Rejected(PlanNotFound) <==>
                  user in db.users && (plan == "pro_monthly" || plan == "pro_yearly") && plan !in db.plans)
            && (r == Rejected(TrialAlreadyUsed) <==> user in db.users && Bookable(db, plan) && user in db.trialUsed)
  {
    hide Rewrite, Insert, Latest;
  }

  /** The latest row is changed in place, or one is added; and the use is recorded unless that write fails. */
  lemma TrialGrants(db: Db, user: nat, plan: string, flagOk: bool, wait: nat)
    requires Inv(db)
    ensures var r := Try(db, StartTrial(user, plan, flagOk, wait));
            r.Done? ==>
              && Holds(r.db, user, plan, Trialing) && OnlyRowsOf(db, r.db, user, db.clock + 1 + wait)
              && |r.db.subs| == |db.subs| + (if HasRow(db, user) then 0 else 1)
              && r.db.users == db.users && r.db.trialUsed == db.trialUsed + (if flagOk then {user} else {})
  {
    hide Inv, Rewrite, Latest, Current, HasRow, OnlyRowsOf, Insert;
    var now := db.clock + 1 + wait;
    var r := Try(db, StartTrial(user, plan, flagOk, wait));
    if r.Done? {
      StartTrialKeepsInv(db, user, plan, flagOk, now);
      LatestIff(db, user);
      if HasRow(db, user) {
        RewriteUpdates(db, user, Some(plan), Trialing, now);
        FlagAside(db, db.(subs := Rewrite(db.subs, user, Some(plan), Trialing), clock := now), r.db, user, now);
      } else {
        InsertAdds(db, user, plan, Trialing, now);
        FlagAside(db, Insert(db, user, plan, Trialing, now), r.db, user, now);
      }
      LatestIsCurrent(r.db, user);
    }
  }

  /** The flag is not among the rows. */
  lemma FlagAside(db: Db, next: Db, flagged: Db, user: nat, now: int)
    requires OnlyRowsOf(db, next, user, now) && flagged == next.(trialUsed := flagged.trialUsed)
    ensures OnlyRowsOf(db, flagged, user, now)
  {
  }

  // ---------------------------------------------------------------- cancel

  /** A cancel succeeds for every known user with a row; the latest row keeps its plan and dates and is canceled,
      so that no row of the user is live. */
  lemma CancelSucceedsIff(db: Db, user: nat, wait: nat)
    requires Inv(db)
    ensures var r := Try(db, Cancel(user, wait));
            && (r.Done? <==> user in db.users && HasRow(db, user))
            && (r == Rejected(NotAuthenticated) <==> user !in db.users)
            && (r == Rejected(NoSubscription) <==> user in db.users && !HasRow(db, user))
            && (r.Done? ==>
                  && OnlyRowsOf(db, r.db, user, db.clock + 1 + wait) && |r.db.subs| == |db.subs|
                  && Latest(db.subs, user).Some?
                  && Latest(r.db.subs, user) == Some(Latest(db.subs, user).value.(status := Canceled))
                  && !HasLive(r.db, user) && r.db.users == db.users && r.db.trialUsed == db.trialUsed)
  {
    hide Inv, Rewrite;
    var now := db.clock + 1 + wait;
    var r := Try(db, Cancel(user, wait));
    LatestIff(db, user);
    CancelKeepsInv(db, user, now);
    if r.Done? {
      RewriteUpdates(db, user, None, Canceled, now);
      LatestIsCurrent(r.db, user);
      LatestIff(r.db, user);
    }
  }

  // ---------------------------------------------------------------- register

  lemma UnknownHasNoRow(db: Db, user: nat)
    requires Inv(db) && user !in db.users
    ensures !HasRow(db, user) && user !in db.trialUsed
  {
  }

  lemma UsersAside(db: Db, next: Db, more: set<nat>, user: nat, now: int)
    ensures OnlyRowsOf(db.(users := more), next, user, now) <==> OnlyRowsOf(db, next, user, now)
    ensures Inv(db) && db.users <= more ==> Inv(db.(users := more))
  {
  }

  /** A registration succeeds for every new user, who then has a free active row unless that write failed, and
      no trial behind it. */
  lemma RegisterSucceedsIff(db: Db, user: nat, rowOk: bool, wait: nat)
    requires Inv(db)
    ensures var r := Try(db, Register(user, rowOk, wait));
            && (r.Done? <==> user !in db.users)
            && (r == Rejected(EmailExists) <==> user in db.users)
            && (r.Done? ==>
                  && r.db.users == db.users + {user} && r.db.trialUsed == db.trialUsed && user !in r.db.trialUsed
                  && OnlyRowsOf(db, r.db, user, db.clock + 1 + wait)
                  && |r.db.subs| == |db.subs| + (if rowOk then 1 else 0)
                  && (rowOk ==> Holds(r.db, user, "free", Active)) && (!rowOk ==> !HasRow(r.db, user)))
  {
    hide Inv, Latest, Current;
    var now := db.clock + 1 + wait;
    var r := Try(db, Register(user, rowOk, wait));
    if r.Done? {
      UnknownHasNoRow(db, user);
      RegisterKeepsInv(db, user, rowOk, now);
      if rowOk {
        hide OnlyRowsOf, Insert, HasRow;
        var known := db.users + {user};
        UsersAside(db, r.db, known, user, now);
        InsertAdds(db.(users := known), user, FREE, Active, now);
        InsertBeside(db, known, user, now);
        LatestIsCurrent(r.db, user);
      }
    }
  }

  lemma InsertBeside(db: Db, known: set<nat>, user: nat, now: int)
    ensures Insert(db.(users := known, clock := now), user, FREE, Active, now)
         == Insert(db.(users := known), user, FREE, Active, now)
  {
  }

  // ---------------------------------------------------------------- what a user is entitled to

  predicate PlanLive(db: Db, user: nat, plan: string) {
    exists i | 0 <= i < |db.subs| :: db.subs[i].user == user && Live(db.subs[i]) && db.subs[i].plan == plan
  }

  /** In terms of rows alone: a user is entitled to the plan of a live row, to the free plan without one. */
  lemma ResolveIff(db: Db, user: nat, plan: string)
    requires Inv(db)
    ensures Resolve(db, user) == Some(plan)
        <==> plan in db.plans
             && (PlanLive(db, user, plan) || (!HasLive(db, user) && plan == "free"))
  {
    LatestIff(db, user);
    PickIsLast(db.subs, user, true);
    if Current(db.subs, user).Some? {
      var at := Pick(db.subs, user, true).value;
      assert db.subs[at].user == user && Live(db.subs[at]);
      forall i | 0 <= i < |db.subs| && db.subs[i].user == user && Live(db.subs[i]) ensures i == at {
        assert Eligible(db.subs[i], user, true);
      }
    }
  }

  // ---------------------------------------------------------------- ids

  /** Every row has its own id, given out in order. */
  predicate IdsOk(db: Db) {
    && (forall i, j | 0 <= i < j < |db.subs| :: db.subs[i].id < db.subs[j].id)
    && forall i | 0 <= i < |db.subs| :: db.subs[i].id < db.nextId
  }

  lemma StepKeepsIds(db: Db, op: Op)
    requires IdsOk(db)
    ensures IdsOk(Step(db, op))
  {
  }

  lemma {:induction false} RunKeepsIds(db: Db, ops: seq<Op>)
    requires IdsOk(db)
    ensures IdsOk(Run(db, ops))
    decreases |ops|
  {
    hide IdsOk, Step;
    if ops != [] {
      StepKeepsIds(db, ops[0]);
      RunKeepsIds(Step(db, ops[0]), ops[1..]);
    }
  }

  // ---------------------------------------------------------------- the order of the queries

  /** Row `a` comes before row `b` in the query: later start first; on a tie the lower id for the current row, the
      higher one for the latest. */
  predicate Precedes(a: Sub, b: Sub, liveOnly: bool) {
    a.startsAt > b.startsAt || (a.startsAt == b.startsAt && if liveOnly then a.id < b.id else a.id > b.id)
  }

  /** Whatever the start dates, ties included: a query returns the first eligible row in its order. */
  lemma {:induction false} PickIsFirst(subs: seq<Sub>, user: nat, liveOnly: bool, i: nat)
    requires forall j, k | 0 <= j < k < |subs| :: subs[j].id != subs[k].id
    requires i < |subs| && Eligible(subs[i], user, liveOnly)
    ensures var at := Pick(subs, user, liveOnly);
            at.Some? && (at.value == i || Precedes(subs[at.value], subs[i], liveOnly))
    decreases |subs|
  {
    var n := |subs| - 1;
    var init := subs[..n];
    var rest := Pick(init, user, liveOnly);
    if i < n {
      assert init[i] == subs[i];
      PickIsFirst(init, user, liveOnly, i);
    } else if rest.Some? {
      assert init[rest.value] == subs[rest.value];
    }
  }
}
