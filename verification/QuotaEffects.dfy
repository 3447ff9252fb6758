/** What a create, an edit, a delete and a background job do to a user's count of SEO projects. */
module QuotaEffects {
  import opened Common
  import opened Quota

  /** How many sites a goal takes: "seo" and "both" take one, "social" none. */
  function Takes(goal: Goal): nat {
    if goal == Social then 0 else 1
  }

  predicate Room(db: Db, user: nat, goal: Goal, limit: Option<int>) {
    limit.Some? && (goal == Social || Sites(db, user) < limit.value)
  }

  lemma RunOne(db: Db, e: Event, es: seq<Event>)
    ensures Run(db, [e] + es) == Run(Step(db, e), es)
  {
    assert ([e] + es)[1..] == es;
  }

  /** The gate and the insert of a new project. */
  function Creation(k: nat, user: nat, goal: Goal, limit: Option<int>): seq<Event> {
    [Gate(user, Create(goal), limit)] + ([Write(k)] + [])
  }

  /** A create, undisturbed, adds the user's project exactly when its goal is social or the user is below the
      limit; then the user's count grows by what the goal takes, and nobody else's. */
  lemma CreateTakesSite(db: Db, user: nat, goal: Goal, limit: Option<int>, other: nat)
    ensures var end := Run(db, Creation(|db.requests|, user, goal, limit));
            if Room(db, user, goal, limit) then
              && end.projects == db.projects + [Project(user, goal, false)] && end.copies == db.copies
              && Sites(end, user) == Sites(db, user) + Takes(goal)
              && (other != user ==> Sites(end, other) == Sites(db, other))
              && Pending(end, user) == Pending(db, user)
            else end == db
  {
    hide Sites, Pending;
    var k := |db.requests|;
    RunOne(db, Gate(user, Create(goal), limit), [Write(k)] + []);
    RunOne(Step(db, Gate(user, Create(goal), limit)), Write(k), []);
    if Room(db, user, goal, limit) {
      Created(db, Step(Step(db, Gate(user, Create(goal), limit)), Write(k)), user, goal, other);
    }
  }

  lemma Created(db: Db, end: Db, user: nat, goal: Goal, other: nat)
    requires end.projects == db.projects + [Project(user, goal, false)]
    requires end.requests == db.requests + [Request(user, Create(goal), Finished)]
    ensures Sites(end, user) == Sites(db, user) + Takes(goal)
    ensures other != user ==> Sites(end, other) == Sites(db, other)
    ensures Pending(end, user) == Pending(db, user)
  {
    CountAppend(db.projects, Counted(user), Project(user, goal, false));
    CountAppend(db.projects, Counted(other), Project(user, goal, false));
    CountAppend(db.requests, Waiting(user), Request(user, Create(goal), Finished));
  }

  /** The gate, the load and the save of an edit. */
  function Edition(k: nat, user: nat, id: nat, goal: Goal, limit: Option<int>): seq<Event> {
    [Gate(user, Edit(id, goal), limit)] + ([Load(k)] + ([Write(k)] + []))
  }

  /** An edit, undisturbed, gives the user's own live project the new goal exactly when the gate has room for that
      goal; no other row changes, and the count follows the goals. */
  lemma EditMovesSite(db: Db, user: nat, id: nat, goal: Goal, limit: Option<int>)
    ensures var end := Run(db, Edition(|db.requests|, user, id, goal, limit));
            if Room(db, user, goal, limit) && Owned(db.projects, id, user) then
              && end.projects == db.projects[id := Project(user, goal, false)]
              && Sites(end, user) == Sites(db, user) - Takes(db.projects[id].goal) + Takes(goal)
            else end.projects == db.projects
  {
    hide Sites;
    var k := |db.requests|;
    var gated := Step(db, Gate(user, Edit(id, goal), limit));
    var loaded := Step(gated, Load(k));
    RunOne(db, Gate(user, Edit(id, goal), limit), [Load(k)] + ([Write(k)] + []));
    RunOne(gated, Load(k), [Write(k)] + []);
    RunOne(loaded, Write(k), []);
    if Owned(db.projects, id, user) { Replaced(db, Step(loaded, Write(k)), user, id, Project(user, goal, false)); }
  }

  lemma Replaced(db: Db, end: Db, user: nat, id: nat, row: Project)
    requires Owned(db.projects, id, user) && row.user == user
    ensures end.projects == db.projects[id := row] ==>
              Sites(end, user) == Sites(db, user) - Takes(db.projects[id].goal)
                                  + (if row.deleted then 0 else Takes(row.goal))
  {
    CountUpdate(db.projects, Counted(user), id, row);
  }

  /** A delete marks the user's own live project, and that frees its site; of others' rows and counts nothing
      changes. */
  lemma DeleteFreesSite(db: Db, user: nat, id: nat, other: nat)
    ensures var next := Step(db, Delete(user, id));
            if Owned(db.projects, id, user) then
              && next == db.(projects := db.projects[id := db.projects[id].(deleted := true)])
              && Sites(next, user) == Sites(db, user) - Takes(db.projects[id].goal)
              && (other != user ==> Sites(next, other) == Sites(db, other))
            else next == db
  {
    if Owned(db.projects, id, user) {
      var gone := db.projects[id].(deleted := true);
      Replaced(db, Step(db, Delete(user, id)), user, id, gone);
      CountUpdate(db.projects, Counted(other), id, gone);
    }
  }

  /** So a user at the limit who deletes a site can create another. */
  lemma DeleteMakesRoom(db: Db, user: nat, id: nat, goal: Goal, limit: int)
    requires Sites(db, user) == limit && Owned(db.projects, id, user) && db.projects[id].goal != Social
    ensures goal != Social ==> Run(db, Creation(|db.requests|, user, goal, Some(limit))) == db
    ensures var freed := Step(db, Delete(user, id));
            var end := Run(freed, Creation(|db.requests|, user, goal, Some(limit)));
            && end.projects == freed.projects + [Project(user, goal, false)]
            && Sites(end, user) == limit - 1 + Takes(goal)
  {
    hide Run, Sites, Creation;
    DeleteFreesSite(db, user, id, user);
    CreateTakesSite(db, user, goal, Some(limit), user);
    CreateTakesSite(Step(db, Delete(user, id)), user, goal, Some(limit), user);
  }

  /** A background job, undisturbed, changes no row. */
  lemma JobChangesNothing(db: Db, id: nat)
    ensures Run(db, [JobLoad(id)] + ([JobSave(|db.copies|)] + [])).projects == db.projects
  {
    var loaded := Step(db, JobLoad(id));
    RunOne(db, JobLoad(id), [JobSave(|db.copies|)] + []);
    RunOne(loaded, JobSave(|db.copies|), []);
    if id < |db.projects| && !db.projects[id].deleted {
      assert db.projects[id := db.projects[id]] == db.projects;
    }
  }
}
