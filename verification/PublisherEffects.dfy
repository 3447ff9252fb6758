/** What each calendar handler and each turn of the worker leaves in the table. */
module PublisherEffects {
  import opened Common
  import opened Publisher

  /** Row `id` may differ, no other. */
  predicate OnlyTask(db: Db, next: Db, id: nat) {
    && |next.tasks| == |db.tasks|
    && forall i | 0 <= i < |db.tasks| && i != id :: next.tasks[i] == db.tasks[i]
  }

  lemma RunTwo(db: Db, a: Event, b: Event)
    ensures Run(db, [a, b]) == Step(Step(db, a), b)
  {
    assert [a, b][1..] == [b] && [b][1..] == [];
    assert Run(Step(db, a), [b]) == Run(Step(Step(db, a), b), []);
  }

  // ---------------------------------------------------------------- handlers

  /** A new task is scheduled, uncompleted and without error, and the worker can come to it exactly when it has a
      date and a supported platform. */
  lemma CreatedMayRunIff(db: Db, platform: Platform, asset: bool, due: Option<int>)
    requires BatchOk(db)
    ensures var next := Step(db, Create(platform, asset, due));
            var id := |db.tasks|;
            && next == db.(tasks := next.tasks) && next.tasks[..id] == db.tasks && |next.tasks| == id + 1
            && Exists(next, id) && next.tasks[id].platform == platform && next.tasks[id].asset == asset
            && next.tasks[id].due == due && next.tasks[id].publishedAt.None?
            && (MayRun(next, id) <==> due.Some? && platform != Unsupported)
  {
    hide MayRun;
    var next := Step(db, Create(platform, asset, due));
    MayRunIff(next, |db.tasks|);
  }

  /** A handler's load and save without anything in between. */
  function Edit(db: Db, id: nat, change: Change): Db {
    Run(db, [Load(id), Save(|db.edits|, change)])
  }

  lemma EditIs(db: Db, id: nat, change: Change)
    ensures Edit(db, id, change)
         == if Exists(db, id) then db.(tasks := db.tasks[id := Changed(db.tasks[id], change)])
            else Step(db, Save(|db.edits|, change))
    ensures !Exists(db, id) ==> Edit(db, id, change) == db
  {
    RunTwo(db, Load(id), Save(|db.edits|, change));
    var loaded := Step(db, Load(id));
    if Exists(db, id) { assert loaded.edits[..|db.edits|] + loaded.edits[|db.edits| + 1..] == db.edits; }
  }

  /** An edit, undisturbed: platform and date change when given, an asset is only ever added; a date sets
      the task back to scheduled without error; all the rest of the row stays, and all other rows. */
  lemma EditChanges(db: Db, id: nat, platform: Option<Platform>, asset: bool, due: Option<int>)
    requires Exists(db, id)
    ensures var next := Edit(db, id, Fields(platform, asset, due));
            && next == db.(tasks := next.tasks) && OnlyTask(db, next, id)
            && var t, u := db.tasks[id], next.tasks[id];
            && u.platform == (if platform.Some? then platform.value else t.platform)
            && (u.asset <==> t.asset || asset) && u.due == (if due.Some? then due else t.due)
            && u.completed == t.completed && u.publishedAt == t.publishedAt && !u.deleted
            && (due.Some? ==> u.status == Scheduled && u.error == "")
            && (due.None? ==> u.status == t.status && u.error == t.error)
  {
    EditIs(db, id, Fields(platform, asset, due));
  }

  /** A toggle flips the flag and nothing else; two toggles change nothing. */
  lemma ToggleTwice(db: Db, id: nat)
    requires Exists(db, id)
    ensures var once := Edit(db, id, Flip);
            && once == db.(tasks := once.tasks) && OnlyTask(db, once, id)
            && once.tasks[id] == db.tasks[id].(completed := !db.tasks[id].completed)
            && Edit(once, id, Flip) == db
  {
    EditIs(db, id, Flip);
    var once := Edit(db, id, Flip);
    EditIs(once, id, Flip);
    assert Edit(once, id, Flip).tasks == db.tasks;
  }

  /** A deleted task is gone for every handler and for the next scan; the other rows stay. */
  lemma DeletedIsGone(db: Db, id: nat, change: Change)
    requires BatchOk(db)
    ensures var next := Step(db, Delete(id));
            && !Exists(next, id) && Edit(next, id, change) == next && next == db.(tasks := next.tasks)
            && OnlyTask(db, next, id) && (id < |db.tasks| && !InBatch(db, id) ==> !MayRun(next, id))
  {
    hide MayRun;
    var next := Step(db, Delete(id));
    EditIs(next, id, change);
    if id < |db.tasks| {
      MayRunIff(next, id);
      assert HeldSupported(next, id) ==> InBatch(db, id);
    }
  }

  // ---------------------------------------------------------------- the worker

  /** The first condition that fails, in the worker's order, names the failure; without one the platform is
      called. */
  lemma MessageNamesCause(t: Task, env: Env)
    ensures !env.metaToken ==> Refusal(t, env) == Some("no meta access token available")
    ensures env.metaToken && t.platform == LinkedIn ==>
              Refusal(t, env) == if env.linkedInToken then None else Some("linkedin access token is missing")
    ensures env.metaToken && t.platform == Instagram && !env.igHandle ==>
              Refusal(t, env) == Some("instagram handle is missing for this project")
    ensures env.metaToken && t.platform == Facebook && !env.fbHandle ==>
              Refusal(t, env) == Some("facebook handle is missing for this project")
    ensures env.metaToken && WithHandle(t, env) && !t.asset ==> Refusal(t, env) == Some("missing uploaded media url")
    ensures env.metaToken && WithHandle(t, env) && t.asset && !env.accounts ==>
              Refusal(t, env) == if t.platform == Instagram then Some("failed to resolve instagram account")
                                 else Some("failed to resolve facebook account")
    ensures env.metaToken && WithHandle(t, env) && t.asset && env.accounts && !env.target ==>
              Refusal(t, env) == if t.platform == Instagram then Some("instagram account could not be resolved")
                                 else Some("facebook page could not be resolved")
    ensures env.metaToken && WithHandle(t, env) && t.asset && env.accounts && env.target ==> Refusal(t, env).None?
  {
  }

  predicate WithHandle(t: Task, env: Env) {
    (t.platform == Instagram && env.igHandle) || (t.platform == Facebook && env.fbHandle)
  }

  /** The worker takes the next task off its list; only the row of a task that it did not skip, and whose save
      succeeded, may differ afterwards. */
  lemma TurnTakesNext(db: Db, env: Env, saved: bool, wait: nat)
    requires BatchOk(db) && db.batch != []
    ensures var next := Step(db, Process(env, saved, wait));
            && next.batch == db.batch[1..] && next.edits == db.edits && next.clock == db.clock + wait
            && OnlyTask(db, next, db.batch[0].id)
            && (Handle(db.batch[0].task, env) == Skipped || !saved ==> next.tasks == db.tasks)
  {
    hide Refusal;
  }

  /** The row as the worker read it, but for what the attempt says about it. */
  predicate SameContent(t: Task, u: Task) {
    u.platform == t.platform && u.asset == t.asset && u.due == t.due && !u.deleted
  }

  /** A failed attempt leaves the task as it was read, not completed, with its message; a reschedule of it,
      undisturbed, lets the worker try again. */
  lemma FailureCanBeRescheduled(db: Db, env: Env, wait: nat, date: int)
    requires Inv(db) && db.batch != [] && Handle(db.batch[0].task, env).NotPublished?
    ensures var c, next := db.batch[0], Step(db, Process(env, true, wait));
            && OnlyTask(db, next, c.id) && SameContent(c.task, next.tasks[c.id])
            && next.tasks[c.id].status == Failed && next.tasks[c.id].error == Handle(c.task, env).message
            && !next.tasks[c.id].completed && next.tasks[c.id].publishedAt == c.task.publishedAt
            && MayRun(Edit(next, c.id, Fields(None, false, Some(date))), c.id)
  {
    hide Refusal, MayRun;
    var c, next := db.batch[0], Step(db, Process(env, true, wait));
    var again := Edit(next, c.id, Fields(None, false, Some(date)));
    EditIs(next, c.id, Fields(None, false, Some(date)));
    MayRunIff(again, c.id);
  }

  /** A publication leaves the task as it was read, published, completed and without error, at this moment; no
      date alone brings it back. */
  lemma PublishedIsDone(db: Db, env: Env, wait: nat, date: int)
    requires Inv(db) && db.batch != [] && Handle(db.batch[0].task, env) == Sent
    ensures var c, next := db.batch[0], Step(db, Process(env, true, wait));
            && OnlyTask(db, next, c.id) && SameContent(c.task, next.tasks[c.id])
            && next.tasks[c.id].status == Published && next.tasks[c.id].error == ""
            && next.tasks[c.id].completed && next.tasks[c.id].publishedAt == Some(db.clock + wait)
            && Done(next, c.id) && !MayRun(Edit(next, c.id, Fields(None, false, Some(date))), c.id)
  {
    hide Refusal, MayRun;
    var c, next := db.batch[0], Step(db, Process(env, true, wait));
    forall i | 0 <= i < |next.batch| ensures next.batch[i].id != c.id {
      assert next.batch[i] == db.batch[i + 1];
    }
    var again := Edit(next, c.id, Fields(None, false, Some(date)));
    EditIs(next, c.id, Fields(None, false, Some(date)));
    MayRunIff(again, c.id);
  }

  /** A skipped task, or one whose result could not be saved, is attempted again when its row is still due and the
      platform supported. */
  lemma UnsavedRunsAgain(db: Db, env: Env, saved: bool, wait: nat)
    requires BatchOk(db) && db.batch != [] && (Handle(db.batch[0].task, env) == Skipped || !saved)
    requires Attemptable(db.tasks[db.batch[0].id])
    ensures MayRun(Step(db, Process(env, saved, wait)), db.batch[0].id)
  {
    hide MayRun, Refusal;
    MayRunIff(Step(db, Process(env, saved, wait)), db.batch[0].id);
  }

  /** A scan during a pass reads nothing; otherwise the pass is what is due, and nothing else changes. */
  lemma ScanOnlyReads(db: Db, wait: nat)
    ensures var next := Step(db, Scan(wait));
            && next.tasks == db.tasks && next.edits == db.edits && next.clock == db.clock + wait
            && (db.batch != [] ==> next.batch == db.batch)
            && (db.batch == [] ==>
                  forall c :: c in next.batch <==>
                    c.id < |db.tasks| && db.tasks[c.id] == c.task && IsDue(c.task, next.clock))
  {
    FindDueExact(db.tasks, db.clock + wait);
  }
}
