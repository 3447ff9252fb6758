/** Scheduled publishing: calendar handlers load and save whole task rows while a worker walks through a
    list of due rows it read earlier, publishes them and saves its own copies back. */
module Publisher {
  import opened Common

  datatype Status = Scheduled | Published | Failed

  /** The platform after trimming and lower-casing. */
  datatype Platform = Instagram | Facebook | LinkedIn | Unsupported

  /** A task row; its id is its position in the table. */
  datatype Task = Task(
    platform: Platform, asset: bool, due: Option<int>, completed: bool, deleted: bool,
    status: Status, error: string, publishedAt: Option<int>)

  /** A row as the worker or a handler read it. */
  datatype Copy = Copy(id: nat, task: Task)

  /** `batch` is what is left of the worker's current pass; `edits` are the rows that handlers have loaded
      and not saved yet. */
  datatype Db = Db(tasks: seq<Task>, batch: seq<Copy>, edits: seq<Copy>, clock: int)

  /** What a handler does to the row it loaded. */
  datatype Change = Fields(platform: Option<Platform>, asset: bool, due: Option<int>) | Flip

  /** What the worker meets outside the tables while it handles one task. */
  datatype Env = Env(
    projectKnown: bool, metaToken: bool, igHandle: bool, fbHandle: bool, accounts: bool, target: bool,
    linkedInToken: bool, publishError: Option<string>)

  datatype Outcome = Skipped | NotPublished(message: string) | Sent

  datatype Event =
    | Create(platform: Platform, asset: bool, due: Option<int>)
    | Load(id: nat)
    | Save(edit: nat, change: Change)
    | Delete(id: nat)
    | Scan(wait: nat)
    | Process(env: Env, saved: bool, wait: nat)

  // ---------------------------------------------------------------- the worker

  predicate IsDue(t: Task, now: int) {
    t.due.Some? && t.due.value <= now && !t.completed && t.status == Scheduled && !t.deleted
  }

  /** Places a due row among the others by due date, after those with the same date. */
  function InsertByDue(batch: seq<Copy>, c: Copy): seq<Copy> {
    if batch == [] then [c]
    else if batch[0].task.due.Some? && c.task.due.Some? && c.task.due.value < batch[0].task.due.value then [c] + batch
    else [batch[0]] + InsertByDue(batch[1..], c)
  }

  /** `FindDueScheduledTasks`. */
  function FindDue(tasks: seq<Task>, now: int): seq<Copy> {
    if tasks == [] then []
    else
      var n := |tasks| - 1;
      var rest := FindDue(tasks[..n], now);
      if IsDue(tasks[n], now) then InsertByDue(rest, Copy(n, tasks[n])) else rest
  }

  /** The checks before the call, in the worker's order. Every platform needs a Meta token, LinkedIn too. */
  function Refusal(t: Task, env: Env): Option<string> {
    if !env.metaToken then Some("no meta access token available")
    else match t.platform
      case Instagram =>
        if !env.igHandle then Some("instagram handle is missing for this project")
        else if !t.asset then Some("missing uploaded media url")
        else if !env.accounts then Some("failed to resolve instagram account")
        else if !env.target then Some("instagram account could not be resolved")
        else None
      case Facebook =>
        if !env.fbHandle then Some("facebook handle is missing for this project")
        else if !t.asset then Some("missing uploaded media url")
        else if !env.accounts then Some("failed to resolve facebook account")
        else if !env.target then Some("facebook page could not be resolved")
        else None
      case LinkedIn => if env.linkedInToken then None else Some("linkedin access token is missing")
      case Unsupported => None
  }

  function Handle(t: Task, env: Env): Outcome {
    if !env.projectKnown || t.platform == Unsupported then Skipped
    else if Refusal(t, env).Some? then NotPublished(Refusal(t, env).value)
    else if env.publishError.Some? then NotPublished(env.publishError.value)
    else Sent
  }

  predicate Ready(t: Task, env: Env) {
    match t.platform
    case Instagram => env.igHandle && t.asset && env.accounts && env.target
    case Facebook => env.fbHandle && t.asset && env.accounts && env.target
    case LinkedIn => env.linkedInToken
    case Unsupported => false
  }

  /** A task counts as published exactly when its project and a Meta token are there, its platform's own
      conditions hold and the platform reports no error; a failure always has its first reason as message. */
  lemma SentIff(t: Task, env: Env)
    ensures Handle(t, env) == Sent
        <==> env.projectKnown && env.metaToken && Ready(t, env) && env.publishError.None?
    ensures Handle(t, env) == Skipped <==> !env.projectKnown || t.platform == Unsupported
    ensures Handle(t, env).NotPublished? && env.metaToken && Ready(t, env)
        ==> env.publishError == Some(Handle(t, env).message)
  {
  }

  /** The copy as the worker saves it. A save inserts the row again when it was deleted meanwhile. */
  function Marked(t: Task, outcome: Outcome, now: int): Task {
    match outcome
    case Skipped => t
    case NotPublished(message) => t.(status := Failed, error := message)
    case Sent => t.(completed := true, status := Published, error := "", publishedAt := Some(now))
  }

  // ---------------------------------------------------------------- steps

  function StepCreate(db: Db, platform: Platform, asset: bool, due: Option<int>): Db {
    db.(tasks := db.tasks + [Task(platform, asset, due, false, false, Scheduled, "", None)])
  }

  predicate Exists(db: Db, id: nat) {
    id < |db.tasks| && !db.tasks[id].deleted
  }

  /** `UpdateCalendarEvent`: empty fields stay; a new due date sets the status back to scheduled. The
      toggle handlers flip the completed flag. */
  function Changed(t: Task, change: Change): Task {
    match change
    case Flip => t.(completed := !t.completed)
    case Fields(platform, asset, due) =>
      var u := t.(platform := if platform.Some? then platform.value else t.platform, asset := t.asset || asset);
      if due.Some? then u.(due := due, status := Scheduled, error := "") else u
  }

  function StepLoad(db: Db, id: nat): Db {
    if Exists(db, id) then db.(edits := db.edits + [Copy(id, db.tasks[id])]) else db
  }

  /** Saves the whole row as it was loaded, changed. A save inserts the row again when it was deleted. */
  function StepSave(db: Db, k: nat, change: Change): Db {
    if k < |db.edits| && db.edits[k].id < |db.tasks| then
      db.(tasks := db.tasks[db.edits[k].id := Changed(db.edits[k].task, change)],
          edits := db.edits[..k] + db.edits[k + 1..])
    else db
  }

  function StepDelete(db: Db, id: nat): Db {
    if Exists(db, id) then db.(tasks := db.tasks[id := db.tasks[id].(deleted := true)]) else db
  }

  /** A pass starts only when the one before it has ended. */
  function StepScan(db: Db, wait: nat): Db {
    var now := db.clock + wait;
    if db.batch == [] then db.(batch := FindDue(db.tasks, now), clock := now) else db.(clock := now)
  }

  function StepProcess(db: Db, env: Env, saved: bool, wait: nat): Db {
    var now := db.clock + wait;
    if db.batch == [] then db.(clock := now)
    else
      var c := db.batch[0];
      var outcome := Handle(c.task, env);
      var write := outcome != Skipped && saved && c.id < |db.tasks|;
      db.(tasks := if write then db.tasks[c.id := Marked(c.task, outcome, now)] else db.tasks,
          batch := db.batch[1..], clock := now)
  }

  function Step(db: Db, e: Event): Db {
    match e
    case Create(platform, asset, due) => StepCreate(db, platform, asset, due)
    case Load(id) => StepLoad(db, id)
    case Save(k, change) => StepSave(db, k, change)
    case Delete(id) => StepDelete(db, id)
    case Scan(wait) => StepScan(db, wait)
    case Process(env, saved, wait) => StepProcess(db, env, saved, wait)
  }

  function Run(db: Db, es: seq<Event>): Db
    decreases |es|
  {
    if es == [] then db else Run(Step(db, es[0]), es[1..])
  }

  // ---------------------------------------------------------------- in place

  class Calendar {
    var tasks: seq<Task>
    var batch: seq<Copy>
    var edits: seq<Copy>
    var clock: int

    function View(): Db
      reads this
    {
      Db(tasks, batch, edits, clock)
    }

    constructor (clock: int)
      ensures View() == Db([], [], [], clock)
    {
      tasks, batch, edits, this.clock := [], [], [], clock;
    }

    method CreateEvent(platform: Platform, asset: bool, due: Option<int>) returns (id: nat)
      modifies this`tasks
      ensures View() == StepCreate(old(View()), platform, asset, due) && id == |old(tasks)|
    {
      id := |tasks|;
      tasks := tasks + [Task(platform, asset, due, false, false, Scheduled, "", None)];
    }

    method LoadTask(id: nat) returns (found: bool)
      modifies this`edits
      ensures View() == StepLoad(old(View()), id) && found == Exists(old(View()), id)
    {
      if !Exists(View(), id) {
        return false;
      }
      edits := edits + [Copy(id, tasks[id])];
      found := true;
    }

    /** The end of `UpdateCalendarEvent`, on the row loaded at its start. */
    method UpdateEvent(k: nat, platform: Option<Platform>, asset: bool, due: Option<int>)
      requires k < |edits| && edits[k].id < |tasks|
      modifies this`tasks, this`edits
      ensures View() == StepSave(old(View()), k, Fields(platform, asset, due))
    {
      var id, task := edits[k].id, edits[k].task;
      if platform.Some? {
        task := task.(platform := platform.value);
      }
      if asset {
        task := task.(asset := true);
      }
      if due.Some? {
        task := task.(due := due);
        task := task.(status := Scheduled);
        task := task.(error := "");
      }
      tasks := tasks[id := task];
      edits := edits[..k] + edits[k + 1..];
    }

    method ToggleTask(k: nat)
      requires k < |edits| && edits[k].id < |tasks|
      modifies this`tasks, this`edits
      ensures View() == StepSave(old(View()), k, Flip)
    {
      var id, task := edits[k].id, edits[k].task;
      task := task.(completed := !task.completed);
      tasks := tasks[id := task];
      edits := edits[..k] + edits[k + 1..];
    }

    method DeleteEvent(id: nat)
      modifies this`tasks
      ensures View() == StepDelete(old(View()), id)
    {
      if Exists(View(), id) {
        tasks := tasks[id := tasks[id].(deleted := true)];
      }
    }

    method LoadDue(now: int) returns (due: seq<Copy>)
      ensures due == FindDue(tasks, now)
    {
      due := [];
      var i := 0;
      while i < |tasks|
        invariant i <= |tasks| && due == FindDue(tasks[..i], now)
      {
        assert tasks[..i + 1][..i] == tasks[..i];
        if IsDue(tasks[i], now) {
          due := InsertByDue(due, Copy(i, tasks[i]));
        }
        i := i + 1;
      }
      assert tasks[..i] == tasks;
    }

    method MarkPublishFailure(c: Copy, message: string, saved: bool)
      requires c.id < |tasks|
      modifies this`tasks
      ensures tasks == if saved then old(tasks)[c.id := Marked(c.task, NotPublished(message), clock)] else old(tasks)
    {
      var task := c.task;
      task := task.(status := Failed);
      task := task.(error := message);
      if saved {
        tasks := tasks[c.id := task];
      }
    }

    /** The body of the worker's loop: `saved` tells whether the save at its end succeeds. */
    method ProcessNext(env: Env, saved: bool, wait: nat)
      requires batch != [] && batch[0].id < |tasks|
      modifies this`tasks, this`batch, this`clock
      ensures View() == StepProcess(old(View()), env, saved, wait)
    {
      var c := batch[0];
      batch := batch[1..];
      clock := clock + wait;
      if env.projectKnown && c.task.platform != Unsupported {
        var refusal := Refusal(c.task, env);
        if refusal.Some? {
          MarkPublishFailure(c, refusal.value, saved);
        } else if env.publishError.Some? {
          MarkPublishFailure(c, env.publishError.value, saved);
        } else {
          var task := c.task;
          task := task.(completed := true);
          task := task.(status := Published);
          task := task.(error := "");
          task := task.(publishedAt := Some(clock));
          if saved {
            tasks := tasks[c.id := task];
          }
        }
      }
    }

    /** One whole pass, when no handler runs meanwhile: a scan and one step for every due task. */
    method RunPass(steps: seq<(Env, bool, nat)>)
      requires batch == [] && |steps| == |FindDue(tasks, clock)|
      modifies this
      ensures View() == Run(old(View()), [Scan(0)] + Processes(steps))
    {
      ghost var start := View();
      batch := LoadDue(clock);
      FindDueExact(tasks, clock);
      assert View() == Step(start, Scan(0));
      var i := 0;
      ghost var events := [Scan(0)];
      assert Run(start, events) == View() by {
        assert events[1..] == [];
      }
      while i < |steps|
        invariant i <= |steps| && |batch| == |steps| - i && |tasks| == |start.tasks|
        invariant forall c | c in batch :: c.id < |tasks|
        invariant events == [Scan(0)] + Processes(steps[..i])
        invariant View() == Run(start, events)
      {
        ProcessNext(steps[i].0, steps[i].1, steps[i].2);
        ghost var e := Process(steps[i].0, steps[i].1, steps[i].2);
        RunSnoc(start, events, e);
        ProcessesSnoc(steps, i);
        events := events + [e];
        i := i + 1;
      }
      assert steps[..i] == steps;
    }
  }

  function Processes(steps: seq<(Env, bool, nat)>): seq<Event> {
    if steps == [] then []
    else
      var last := steps[|steps| - 1];
      Processes(steps[..|steps| - 1]) + [Process(last.0, last.1, last.2)]
  }

  lemma ProcessesSnoc(steps: seq<(Env, bool, nat)>, i: nat)
    requires i < |steps|
    ensures Processes(steps[..i + 1]) == Processes(steps[..i]) + [Process(steps[i].0, steps[i].1, steps[i].2)]
  {
    assert steps[..i + 1][..i] == steps[..i];
  }

  lemma {:induction false} RunSnoc(db: Db, es: seq<Event>, e: Event)
    ensures Run(db, es + [e]) == Step(Run(db, es), e)
    decreases |es|
  {
    if es == [] {
      assert ([e])[1..] == [];
      assert es + [e] == [e];
    } else {
      assert (es + [e])[1..] == es[1..] + [e];
      RunSnoc(Step(db, es[0]), es[1..], e);
    }
  }

  // ---------------------------------------------------------------- the query

  lemma {:induction false} InsertedAmong(batch: seq<Copy>, c: Copy)
    requires c.task.due.Some? && (forall k | k in batch :: k.task.due.Some?)
    requires forall i, j | 0 <= i < j < |batch| :: batch[i].task.due.value <= batch[j].task.due.value
    ensures var r := InsertByDue(batch, c);
            && (forall k :: k in r <==> k in batch || k == c) && |r| == |batch| + 1
            && (forall i, j | 0 <= i < j < |r| :: r[i].task.due.value <= r[j].task.due.value)
    decreases |batch|
  {
    var r := InsertByDue(batch, c);
    if batch != [] && c.task.due.value >= batch[0].task.due.value {
      assert batch[0] in batch;
      forall k | k in batch[1..] ensures k.task.due.Some? {
        assert k in batch;
      }
      InsertedAmong(batch[1..], c);
      assert r[1..] == InsertByDue(batch[1..], c);
      forall k ensures k in r <==> k in batch || k == c {
        assert k in r <==> k == r[0] || k in r[1..];
        assert k in batch <==> k == batch[0] || k in batch[1..];
      }
      forall j | 0 < j < |r| ensures r[0].task.due.value <= r[j].task.due.value {
        assert r[j] in r[1..];
        assert r[j] in batch[1..] || r[j] == c;
        if k :| 0 <= k < |batch[1..]| && batch[1..][k] == r[j] {
          assert batch[k + 1] == r[j];
        }
      }
      forall i, j | 0 < i < j < |r| ensures r[i].task.due.value <= r[j].task.due.value {
        assert r[i] == r[1..][i - 1] && r[j] == r[1..][j - 1];
      }
    }
  }

  predicate DistinctIds(batch: seq<Copy>) {
    forall i, j | 0 <= i < j < |batch| :: batch[i].id != batch[j].id
  }

  lemma {:induction false} InsertKeepsDistinct(batch: seq<Copy>, c: Copy)
    requires DistinctIds(batch) && forall k | k in batch :: k.id != c.id
    ensures DistinctIds(InsertByDue(batch, c))
    ensures forall k | k in InsertByDue(batch, c) :: k in batch || k == c
    decreases |batch|
  {
    var r := InsertByDue(batch, c);
    if batch != [] {
      assert batch[0] in batch;
      forall k | k in batch[1..] ensures k in batch {}
      InsertKeepsDistinct(batch[1..], c);
      if r != [c] + batch {
        var rest := InsertByDue(batch[1..], c);
        forall j | 0 < j < |r| ensures r[0].id != r[j].id {
          assert r[j] == rest[j - 1] && rest[j - 1] in rest;
          if rest[j - 1] != c {
            var k :| 0 <= k < |batch[1..]| && batch[1..][k] == rest[j - 1];
            assert batch[k + 1] == rest[j - 1];
          }
        }
      }
    }
  }

  /** The pass gets each due row once, unchanged, the earliest due date first, and nothing else. */
  lemma {:induction false} FindDueExact(tasks: seq<Task>, now: int)
    ensures var due := FindDue(tasks, now);
            && (forall c :: c in due <==> c.id < |tasks| && tasks[c.id] == c.task && IsDue(c.task, now))
            && (forall i, j | 0 <= i < j < |due| :: due[i].task.due.value <= due[j].task.due.value)
            && DistinctIds(due)
    decreases |tasks|
  {
    if tasks != [] {
      var n := |tasks| - 1;
      var rest := FindDue(tasks[..n], now);
      FindDueExact(tasks[..n], now);
      if IsDue(tasks[n], now) {
        InsertedAmong(rest, Copy(n, tasks[n]));
        InsertKeepsDistinct(rest, Copy(n, tasks[n]));
      }
    }
  }

  // ---------------------------------------------------------------- invariant

  /** A published row has no error and a publish time not before its due date; a scheduled one no error. */
  predicate Consistent(t: Task, clock: int) {
    && (t.status == Published ==>
          t.error == "" && t.publishedAt.Some? && t.due.Some? && t.due.value <= t.publishedAt.value <= clock)
    && (t.status == Scheduled ==> t.error == "")
  }

  predicate BatchOk(db: Db) {
    && DistinctIds(db.batch)
    && forall i | 0 <= i < |db.batch| :: db.batch[i].id < |db.tasks| && IsDue(db.batch[i].task, db.clock)
  }

  predicate RowsOk(tasks: seq<Task>, clock: int) {
    forall i | 0 <= i < |tasks| :: Consistent(tasks[i], clock)
  }

  predicate EditsOk(db: Db) {
    forall i | 0 <= i < |db.edits| :: db.edits[i].id < |db.tasks| && Consistent(db.edits[i].task, db.clock)
  }

  predicate Inv(db: Db) {
    BatchOk(db) && RowsOk(db.tasks, db.clock) && EditsOk(db)
  }

  lemma ScanKeepsInv(db: Db, wait: nat)
    requires Inv(db)
    ensures Inv(StepScan(db, wait))
  {
    if db.batch == [] {
      FindDueExact(db.tasks, db.clock + wait);
      var next := StepScan(db, wait);
      forall i | 0 <= i < |next.batch|
        ensures next.batch[i].id < |next.tasks| && IsDue(next.batch[i].task, next.clock)
      {
        assert next.batch[i] in next.batch;
      }
    }
  }

  lemma ProcessKeepsInv(db: Db, env: Env, saved: bool, wait: nat)
    requires Inv(db)
    ensures Inv(StepProcess(db, env, saved, wait))
  {
    hide Refusal;
    if db.batch != [] {
      var c := db.batch[0];
      assert Consistent(Marked(c.task, Handle(c.task, env), db.clock + wait), db.clock + wait)
        || Handle(c.task, env).Skipped?;
    }
  }

  lemma SaveKeepsInv(db: Db, k: nat, change: Change)
    requires Inv(db)
    ensures Inv(StepSave(db, k, change))
  {
    hide IsDue;
    if k < |db.edits| {
      assert Consistent(Changed(db.edits[k].task, change), db.clock);
      var next := StepSave(db, k, change);
      forall i | 0 <= i < |next.edits|
        ensures next.edits[i].id < |next.tasks| && Consistent(next.edits[i].task, next.clock)
      {
        assert next.edits[i] == if i < k then db.edits[i] else db.edits[i + 1];
      }
    }
  }

  lemma StepKeepsInv(db: Db, e: Event)
    requires Inv(db)
    ensures Inv(Step(db, e))
  {
    match e
    case Create(_, _, _) =>
    case Load(_) =>
    case Save(k, change) => SaveKeepsInv(db, k, change);
    case Delete(_) =>
    case Scan(wait) => ScanKeepsInv(db, wait);
    case Process(env, saved, wait) => ProcessKeepsInv(db, env, saved, wait);
  }

  lemma {:induction false} RunKeepsInv(db: Db, es: seq<Event>)
    requires Inv(db)
    ensures Inv(Run(db, es)) && Run(db, es).clock >= db.clock
    decreases |es|
  {
    hide Inv;
    if es != [] {
      StepKeepsInv(db, es[0]);
      RunKeepsInv(Step(db, es[0]), es[1..]);
    }
  }

  function Empty(clock: int): Db {
    Db([], [], [], clock)
  }

  /** In every run a task marked published has no error and a publish time that has passed and is not
      before its due date; a scheduled task has no error. */
  lemma PublishedOnTime(clock: int, es: seq<Event>, id: nat)
    ensures var db := Run(Empty(clock), es);
            id < |db.tasks| ==>
              var t := db.tasks[id];
              && (t.status == Published ==>
                    t.error == "" && t.publishedAt.Some? && t.due.Some? && t.publishedAt.value <= db.clock
                    && t.due.value <= t.publishedAt.value)
              && (t.status == Scheduled ==> t.error == "")
  {
    RunKeepsInv(Empty(clock), es);
    var db := Run(Empty(clock), es);
    assert id < |db.tasks| ==> Consistent(db.tasks[id], db.clock);
  }

  // ---------------------------------------------------------------- attempts

  predicate InBatch(db: Db, id: nat) {
    exists i | 0 <= i < |db.batch| :: db.batch[i].id == id
  }

  /** The worker handles the task and does not skip it; every publish call is such an attempt. */
  predicate Attempts(db: Db, e: Event, id: nat) {
    e.Process? && db.batch != [] && db.batch[0].id == id && Handle(db.batch[0].task, e.env) != Skipped
  }

  predicate Saves(db: Db, e: Event, id: nat) {
    e.Save? && e.edit < |db.edits| && db.edits[e.edit].id == id && id < |db.tasks|
  }

  predicate Reschedules(db: Db, e: Event, id: nat) {
    Saves(db, e, id) && e.change.Fields? && e.change.due.Some?
  }

  /** A handler that sets no due date saves a scheduled row over one that no longer is: it was attempted,
      or deleted, after the handler loaded it. */
  predicate Restores(db: Db, e: Event, id: nat) {
    && Saves(db, e, id) && !Reschedules(db, e, id)
    && db.edits[e.edit].task.status == Scheduled
    && (db.tasks[id].status != Scheduled || db.tasks[id].deleted)
  }

  /** One attempt is still owed: the task waits in the pass or in the table, or is not created yet. */
  function Owed(db: Db, id: nat): nat {
    if id >= |db.tasks| || InBatch(db, id) || (db.tasks[id].status == Scheduled && !db.tasks[id].deleted) then 1 else 0
  }

  /** What lets another attempt come. */
  predicate Reopens(db: Db, e: Event, id: nat) {
    Reschedules(db, e, id) || Restores(db, e, id)
  }

  lemma ProcessOwed(db: Db, env: Env, saved: bool, wait: nat, id: nat)
    requires Inv(db)
    ensures var e := Process(env, saved, wait);
            One(Attempts(db, e, id)) + Owed(StepProcess(db, env, saved, wait), id)
            <= Owed(db, id) + One(Attempts(db, e, id) && !saved)
  {
    hide Refusal, Consistent, IsDue;
    var next := StepProcess(db, env, saved, wait);
    if db.batch != [] {
      if InBatch(next, id) {
        var i :| 0 <= i < |next.batch| && next.batch[i].id == id;
        assert db.batch[i + 1].id == id;
      }
      assert db.batch[0].id == id ==> InBatch(db, id);
    }
  }

  lemma ScanOwed(db: Db, wait: nat, id: nat)
    requires Inv(db)
    ensures Owed(StepScan(db, wait), id) <= Owed(db, id)
  {
    var next := StepScan(db, wait);
    if db.batch == [] && InBatch(next, id) {
      FindDueExact(db.tasks, db.clock + wait);
      var i :| 0 <= i < |next.batch| && next.batch[i].id == id;
      assert next.batch[i] in next.batch;
    }
  }

  lemma SaveOwed(db: Db, k: nat, change: Change, id: nat)
    requires EditsOk(db)
    ensures Owed(StepSave(db, k, change), id) <= Owed(db, id) + One(Reopens(db, Save(k, change), id))
  {
    hide Consistent;
    assert InBatch(StepSave(db, k, change), id) ==> InBatch(db, id);
  }

  lemma StepOwed(db: Db, e: Event, id: nat)
    requires Inv(db)
    ensures One(Attempts(db, e, id)) + Owed(Step(db, e), id)
         <= Owed(db, id) + One(Reopens(db, e, id)) + One(Attempts(db, e, id) && !e.saved)
    ensures Owed(db, id) == 0 ==> !Attempts(db, e, id)
  {
    hide Refusal, Consistent, IsDue, StepScan, StepProcess, StepSave;
    assert db.batch != [] && db.batch[0].id == id ==> InBatch(db, id);
    match e
    case Create(platform, asset, due) =>
      assert InBatch(Step(db, e), id) ==> InBatch(db, id);
    case Load(i) =>
      assert InBatch(Step(db, e), id) ==> InBatch(db, id);
    case Save(k, change) => SaveOwed(db, k, change, id);
    case Delete(i) =>
      assert InBatch(Step(db, e), id) ==> InBatch(db, id);
    case Scan(wait) => ScanOwed(db, wait, id);
    case Process(env, saved, wait) => ProcessOwed(db, env, saved, wait, id);
  }

  function CountAttempts(db: Db, es: seq<Event>, id: nat): nat
    decreases |es|
  {
    if es == [] then 0 else One(Attempts(db, es[0], id)) + CountAttempts(Step(db, es[0]), es[1..], id)
  }

  function CountReopens(db: Db, es: seq<Event>, id: nat): nat
    decreases |es|
  {
    if es == [] then 0 else One(Reopens(db, es[0], id)) + CountReopens(Step(db, es[0]), es[1..], id)
  }

  /** Attempts whose result could not be saved. */
  function CountUnsaved(db: Db, es: seq<Event>, id: nat): nat
    decreases |es|
  {
    if es == [] then 0
    else One(Attempts(db, es[0], id) && !es[0].saved) + CountUnsaved(Step(db, es[0]), es[1..], id)
  }

  lemma {:induction false} RunOwed(db: Db, es: seq<Event>, id: nat)
    requires Inv(db)
    ensures CountAttempts(db, es, id) + Owed(Run(db, es), id)
         <= Owed(db, id) + CountReopens(db, es, id) + CountUnsaved(db, es, id)
    decreases |es|
  {
    hide Inv, Owed, Step, Attempts, Reopens;
    if es != [] {
      StepOwed(db, es[0], id);
      StepKeepsInv(db, es[0]);
      RunOwed(Step(db, es[0]), es[1..], id);
    }
  }

  /** In every run from empty tables a task is attempted at most once, plus once for every reschedule, for
      every save of a handler that restores a row attempted or deleted meanwhile, and for every attempt
      whose result could not be saved. */
  lemma AttemptsBound(clock: int, es: seq<Event>, id: nat)
    ensures CountAttempts(Empty(clock), es, id)
         <= 1 + CountReopens(Empty(clock), es, id) + CountUnsaved(Empty(clock), es, id)
  {
    RunOwed(Empty(clock), es, id);
  }

  /** A task that failed (or was published, or deleted) and is not in the running pass is not attempted
      again before it is rescheduled or restored. */
  lemma NoRetryUnlessReopened(db: Db, es: seq<Event>, id: nat)
    requires Inv(db) && id < |db.tasks| && !InBatch(db, id)
    requires db.tasks[id].status != Scheduled || db.tasks[id].deleted
    requires CountReopens(db, es, id) == 0
    ensures CountAttempts(db, es, id) == 0
  {
    NotOwed(db, es, id);
  }

  lemma {:induction false} NotOwed(db: Db, es: seq<Event>, id: nat)
    requires Inv(db) && Owed(db, id) == 0 && CountReopens(db, es, id) == 0
    ensures CountAttempts(db, es, id) == 0
    decreases |es|
  {
    hide Inv, Owed, Step, Attempts, Reopens;
    if es != [] {
      StepOwed(db, es[0], id);
      StepKeepsInv(db, es[0]);
      NotOwed(Step(db, es[0]), es[1..], id);
    }
  }

  // ---------------------------------------------------------------- when another attempt can come

  /** The next scan after its due date takes the row, and the worker does not skip it. */
  predicate Attemptable(t: Task) {
    t.status == Scheduled && !t.completed && t.due.Some? && !t.deleted && t.platform != Unsupported
  }

  predicate HeldSupported(db: Db, id: nat) {
    exists i | 0 <= i < |db.batch| :: db.batch[i].id == id && db.batch[i].task.platform != Unsupported
  }

  predicate Untouched(db: Db, es: seq<Event>, id: nat)
    decreases |es|
  {
    es != [] ==> !Saves(db, es[0], id) && Untouched(Step(db, es[0]), es[1..], id)
  }

  /** Some run in which no handler saves the task attempts it. */
  ghost predicate MayRun(db: Db, id: nat) {
    exists es :: Untouched(db, es, id) && CountAttempts(db, es, id) > 0
  }

  lemma CountNext(db: Db, e: Event, es: seq<Event>, id: nat)
    ensures CountAttempts(db, [e] + es, id) == One(Attempts(db, e, id)) + CountAttempts(Step(db, e), es, id)
    ensures Untouched(db, [e] + es, id) <==> !Saves(db, e, id) && Untouched(Step(db, e), es, id)
  {
    hide Step, Saves, Attempts;
    assert ([e] + es)[1..] == es;
  }

  lemma MayRunAfter(db: Db, e: Event, id: nat)
    requires !Saves(db, e, id) && (Attempts(db, e, id) || MayRun(Step(db, e), id))
    ensures MayRun(db, id)
  {
    hide Step, Saves, Attempts, CountAttempts;
    if Attempts(db, e, id) {
      CountNext(db, e, [], id);
      assert Untouched(db, [e] + [], id) && CountAttempts(db, [e] + [], id) > 0;
    } else {
      var es :| Untouched(Step(db, e), es, id) && CountAttempts(Step(db, e), es, id) > 0;
      CountNext(db, e, es, id);
      assert Untouched(db, [e] + es, id) && CountAttempts(db, [e] + es, id) > 0;
    }
  }

  /** No token and no account: a task of a known project fails, one of an unknown project is skipped. */
  function Meets(projectKnown: bool): Env {
    Env(projectKnown, false, false, false, false, false, false, None)
  }

  lemma {:induction false} WalkTo(db: Db, id: nat)
    requires HeldSupported(db, id)
    ensures MayRun(db, id)
    decreases |db.batch|
  {
    var c := db.batch[0];
    var here := c.id == id && c.task.platform != Unsupported;
    var e := Process(Meets(here), false, 0);
    if !here {
      var next := Step(db, e);
      var i :| 0 <= i < |db.batch| && db.batch[i].id == id && db.batch[i].task.platform != Unsupported;
      assert next.batch[i - 1] == db.batch[i];
      WalkTo(next, id);
    }
    MayRunAfter(db, e, id);
  }

  lemma {:induction false} Reach(db: Db, id: nat)
    requires id < |db.tasks| && Attemptable(db.tasks[id])
    ensures MayRun(db, id)
    decreases |db.batch|
  {
    var t := db.tasks[id];
    if db.batch == [] {
      var wait: nat := if t.due.value > db.clock then t.due.value - db.clock else 0;
      var next := Step(db, Scan(wait));
      FindDueExact(db.tasks, db.clock + wait);
      assert Copy(id, t) in next.batch;
      WalkTo(next, id);
      MayRunAfter(db, Scan(wait), id);
    } else {
      var e := Process(Meets(false), false, 0);
      Reach(Step(db, e), id);
      MayRunAfter(db, e, id);
    }
  }

  predicate Dead(db: Db, id: nat) {
    id < |db.tasks| && !Attemptable(db.tasks[id]) && !HeldSupported(db, id)
  }

  lemma StepKeepsDead(db: Db, e: Event, id: nat)
    requires Dead(db, id) && !Saves(db, e, id)
    ensures Dead(Step(db, e), id) && !Attempts(db, e, id)
  {
    hide Refusal;
    if HeldSupported(Step(db, e), id) { BatchStep(db, e, id); }
  }

  /** What a step adds to the pass are due rows. */
  lemma BatchStep(db: Db, e: Event, id: nat)
    requires id < |db.tasks| && HeldSupported(Step(db, e), id)
    ensures HeldSupported(db, id) || Attemptable(db.tasks[id])
  {
    hide Refusal;
    var next := Step(db, e);
    var i :| 0 <= i < |next.batch| && next.batch[i].id == id && next.batch[i].task.platform != Unsupported;
    if e.Scan? && db.batch == [] {
      FindDueExact(db.tasks, next.clock);
      assert next.batch[i] in next.batch;
    } else {
      assert next.batch[i] == db.batch[if e.Process? && db.batch != [] then i + 1 else i];
    }
  }

  lemma {:induction false} DeadStays(db: Db, es: seq<Event>, id: nat)
    requires Dead(db, id) && Untouched(db, es, id)
    ensures CountAttempts(db, es, id) == 0
    decreases |es|
  {
    hide Step, Attempts, Dead, Saves;
    if es != [] {
      StepKeepsDead(db, es[0], id);
      DeadStays(Step(db, es[0]), es[1..], id);
    }
  }

  /** While no handler saves it, a task can be attempted if and only if its row is scheduled, dated, not
      completed, not deleted and of a supported platform, or the worker holds a copy of such a platform. */
  lemma MayRunIff(db: Db, id: nat)
    requires id < |db.tasks|
    ensures MayRun(db, id) <==> Attemptable(db.tasks[id]) || HeldSupported(db, id)
  {
    if Attemptable(db.tasks[id]) {
      Reach(db, id);
    } else if HeldSupported(db, id) {
      WalkTo(db, id);
    } else {
      forall es | Untouched(db, es, id) ensures CountAttempts(db, es, id) == 0 {
        DeadStays(db, es, id);
      }
    }
  }

  /** Scheduled with a date: an attempt can come without a new date. */
  predicate Live(t: Task) {
    t.status == Scheduled && t.due.Some? && !t.deleted
  }

  predicate LivePending(db: Db, id: nat) {
    exists k | 0 <= k < |db.edits| :: db.edits[k].id == id && Live(db.edits[k].task)
  }

  predicate NotRescheduled(db: Db, es: seq<Event>, id: nat)
    decreases |es|
  {
    es != [] ==> !Reschedules(db, es[0], id) && NotRescheduled(Step(db, es[0]), es[1..], id)
  }

  /** Some run without a reschedule of the task attempts it. */
  ghost predicate MayRetry(db: Db, id: nat) {
    exists es :: NotRescheduled(db, es, id) && CountAttempts(db, es, id) > 0
  }

  lemma MayRetryAfter(db: Db, e: Event, id: nat)
    requires !Reschedules(db, e, id) && MayRetry(Step(db, e), id)
    ensures MayRetry(db, id)
  {
    hide Step, Reschedules, Attempts, CountAttempts;
    var es :| NotRescheduled(Step(db, e), es, id) && CountAttempts(Step(db, e), es, id) > 0;
    CountNext(db, e, es, id);
    assert ([e] + es)[1..] == es;
    assert NotRescheduled(db, [e] + es, id) && CountAttempts(db, [e] + es, id) > 0;
  }

  lemma {:induction false} UntouchedIsNotRescheduled(db: Db, es: seq<Event>, id: nat)
    requires Untouched(db, es, id)
    ensures NotRescheduled(db, es, id)
    decreases |es|
  {
    hide Step;
    if es != [] { UntouchedIsNotRescheduled(Step(db, es[0]), es[1..], id); }
  }

  /** Some save without a date: a platform for a task that has none, the completed flag off. */
  lemma {:induction false} LiveRowRuns(db: Db, id: nat)
    requires id < |db.tasks| && Live(db.tasks[id])
    ensures MayRetry(db, id)
    decreases db.tasks[id].platform == Unsupported, db.tasks[id].completed
  {
    var t := db.tasks[id];
    if Attemptable(t) {
      Reach(db, id);
      var es :| Untouched(db, es, id) && CountAttempts(db, es, id) > 0;
      UntouchedIsNotRescheduled(db, es, id);
    } else {
      var change := if t.platform == Unsupported then Fields(Some(Instagram), false, None) else Flip;
      var loaded := Step(db, Load(id));
      LiveRowRuns(Step(loaded, Save(|db.edits|, change)), id);
      MayRetryAfter(loaded, Save(|db.edits|, change), id);
      MayRetryAfter(db, Load(id), id);
    }
  }

  predicate Stuck(db: Db, id: nat) {
    id < |db.tasks| && !Live(db.tasks[id]) && !LivePending(db, id) && !HeldSupported(db, id)
  }

  lemma StepKeepsStuck(db: Db, e: Event, id: nat)
    requires Stuck(db, id) && !Reschedules(db, e, id)
    ensures Stuck(Step(db, e), id) && !Attempts(db, e, id)
  {
    hide Refusal, FindDue;
    var next := Step(db, e);
    if HeldSupported(next, id) { BatchStep(db, e, id); }
    if LivePending(next, id) { EditsStep(db, e, id); }
  }

  /** What a step adds to the loaded rows is a row of the table. */
  lemma EditsStep(db: Db, e: Event, id: nat)
    requires id < |db.tasks| && LivePending(Step(db, e), id)
    ensures LivePending(db, id) || Live(db.tasks[id])
  {
    hide Refusal, FindDue, Live;
    var next := Step(db, e);
    var k :| 0 <= k < |next.edits| && next.edits[k].id == id && Live(next.edits[k].task);
    var was := if e.Save? && |next.edits| < |db.edits| && k >= e.edit then k + 1 else k;
    assert was < |db.edits| ==> next.edits[k] == db.edits[was];
  }

  lemma {:induction false} StuckStays(db: Db, es: seq<Event>, id: nat)
    requires Stuck(db, id) && NotRescheduled(db, es, id)
    ensures CountAttempts(db, es, id) == 0
    decreases |es|
  {
    hide Step, Attempts, Stuck, Reschedules;
    if es != [] {
      StepKeepsStuck(db, es[0], id);
      StuckStays(Step(db, es[0]), es[1..], id);
    }
  }

  /** Without a reschedule an attempt can come if and only if the row, or a row that a handler loaded and has
      not saved, is scheduled and dated, or the worker holds a copy of a supported platform. */
  lemma MayRetryIff(db: Db, id: nat)
    requires id < |db.tasks|
    ensures MayRetry(db, id) <==> Live(db.tasks[id]) || LivePending(db, id) || HeldSupported(db, id)
  {
    if Live(db.tasks[id]) {
      LiveRowRuns(db, id);
    } else if LivePending(db, id) {
      var k :| 0 <= k < |db.edits| && db.edits[k].id == id && Live(db.edits[k].task);
      var save := Save(k, Fields(None, false, None));
      LiveRowRuns(Step(db, save), id);
      MayRetryAfter(db, save, id);
    } else if HeldSupported(db, id) {
      WalkTo(db, id);
      var es :| Untouched(db, es, id) && CountAttempts(db, es, id) > 0;
      UntouchedIsNotRescheduled(db, es, id);
    } else {
      forall es | NotRescheduled(db, es, id) ensures CountAttempts(db, es, id) == 0 {
        StuckStays(db, es, id);
      }
    }
  }

  /** So a task that failed, was published or was deleted, and is not in the running pass, can be attempted
      again without being rescheduled if and only if some handler loaded it while it was scheduled with a
      date and has yet to save it. */
  lemma RetryIff(db: Db, id: nat)
    requires id < |db.tasks| && !InBatch(db, id) && (db.tasks[id].status != Scheduled || db.tasks[id].deleted)
    ensures MayRetry(db, id) <==> LivePending(db, id)
  {
    hide MayRetry;
    MayRetryIff(db, id);
  }

  /** A restored row is published a second time: a handler loads a due task, the worker publishes it, and
      the handler's save of some other field makes it due again for the next pass. */
  lemma RestoredRunsAgain(db: Db, k: nat, platform: Option<Platform>, asset: bool)
    requires Inv(db) && db.batch == [] && k < |db.edits| && IsDue(db.edits[k].task, db.clock)
    requires db.tasks[db.edits[k].id].status == Published
    ensures var id := db.edits[k].id;
            var save := Save(k, Fields(platform, asset, None));
            Restores(db, save, id) && InBatch(Step(Step(db, save), Scan(0)), id)
  {
    var id := db.edits[k].id;
    var saved := Step(db, Save(k, Fields(platform, asset, None)));
    FindDueExact(saved.tasks, saved.clock);
    assert Copy(id, saved.tasks[id]) in FindDue(saved.tasks, saved.clock);
  }

  // ---------------------------------------------------------------- rescheduling

  /** A new due date makes the worker pick a task up again exactly when the task is not completed: the
      handler resets the status but not that flag. */
  lemma RescheduledIsDueIff(t: Task, platform: Option<Platform>, asset: bool, date: int, now: int)
    requires !t.deleted
    ensures IsDue(Changed(t, Fields(platform, asset, Some(date))), now) <==> date <= now && !t.completed
  {
  }

  predicate Done(db: Db, id: nat) {
    id < |db.tasks| && db.tasks[id].completed && !InBatch(db, id)
  }

  /** A save that leaves the task not completed: a toggle, or a row loaded before it was completed. */
  predicate Uncompletes(db: Db, e: Event, id: nat) {
    Saves(db, e, id) && !Changed(db.edits[e.edit].task, e.change).completed
  }

  function CountUncompletes(db: Db, es: seq<Event>, id: nat): nat
    decreases |es|
  {
    if es == [] then 0 else One(Uncompletes(db, es[0], id)) + CountUncompletes(Step(db, es[0]), es[1..], id)
  }

  lemma StepKeepsDone(db: Db, e: Event, id: nat)
    requires Inv(db) && Done(db, id) && !Uncompletes(db, e, id)
    ensures Done(Step(db, e), id) && !Attempts(db, e, id)
  {
    hide Refusal, Consistent;
    assert db.batch != [] ==> db.batch[0].id != id;
    var next := Step(db, e);
    if e.Scan? && db.batch == [] {
      FindDueExact(db.tasks, next.clock);
      forall i | 0 <= i < |next.batch| ensures next.batch[i].id != id {
        assert next.batch[i] in next.batch;
      }
    } else {
      var gone := if e.Process? && db.batch != [] then 1 else 0;
      forall i | 0 <= i < |next.batch| ensures next.batch[i].id != id {
        assert next.batch[i] == db.batch[i + gone];
      }
    }
  }

  /** So a published task is never published again, however often it is rescheduled, unless some save
      leaves it not completed. */
  lemma {:induction false} CompletedStaysDone(db: Db, es: seq<Event>, id: nat)
    requires Inv(db) && Done(db, id) && CountUncompletes(db, es, id) == 0
    ensures CountAttempts(db, es, id) == 0
    decreases |es|
  {
    hide Inv, Step, Attempts, Done, Uncompletes;
    if es != [] {
      StepKeepsDone(db, es[0], id);
      StepKeepsInv(db, es[0]);
      CompletedStaysDone(Step(db, es[0]), es[1..], id);
    }
  }

  /** And a save of a completed task brings another attempt, should no handler save it again, if and only if
      the row it writes is not completed, scheduled, dated and of a supported platform. */
  lemma UncompletedRunsIff(db: Db, k: nat, change: Change, id: nat)
    requires Done(db, id) && Saves(db, Save(k, change), id)
    ensures MayRun(Step(db, Save(k, change)), id) <==> Attemptable(Changed(db.edits[k].task, change))
  {
    hide MayRun;
    var next := Step(db, Save(k, change));
    MayRunIff(next, id);
    assert HeldSupported(next, id) ==> InBatch(db, id);
  }

  // ---------------------------------------------------------------- timing

  /** What handlers wrote as the task's due date since the worker's last scan: None when none of them saved
      the task, else the date of the last save. A pass begins with `written` forgotten. */
  function StepWritten(db: Db, e: Event, id: nat, written: Option<Option<int>>): Option<Option<int>> {
    if e.Scan? && db.batch == [] then None
    else if Saves(db, e, id) then Some(Changed(db.edits[e.edit].task, e.change).due)
    else written
  }

  function Written(db: Db, es: seq<Event>, id: nat, written: Option<Option<int>>): Option<Option<int>>
    decreases |es|
  {
    if es == [] then written else Written(Step(db, es[0]), es[1..], id, StepWritten(db, es[0], id, written))
  }

  /** The date in the table is the one the worker read, or the last one written since. */
  predicate DateKnown(db: Db, id: nat, written: Option<Option<int>>) {
    forall i | 0 <= i < |db.batch| && db.batch[i].id == id ::
      id < |db.tasks| && db.tasks[id].due == if written.Some? then written.value else db.batch[i].task.due
  }

  lemma ScanKnows(db: Db, wait: nat, id: nat)
    requires db.batch == []
    ensures DateKnown(StepScan(db, wait), id, None)
  {
    var next := StepScan(db, wait);
    FindDueExact(db.tasks, db.clock + wait);
    forall i | 0 <= i < |next.batch| && next.batch[i].id == id
      ensures id < |next.tasks| && next.tasks[id].due == next.batch[i].task.due
    {
      assert next.batch[i] in next.batch;
    }
  }

  lemma ProcessKnows(db: Db, env: Env, saved: bool, wait: nat, id: nat, written: Option<Option<int>>)
    requires Inv(db) && DateKnown(db, id, written)
    ensures DateKnown(StepProcess(db, env, saved, wait), id, written)
  {
    hide Refusal, Consistent, IsDue, Handle, Marked;
    var next := StepProcess(db, env, saved, wait);
    if db.batch != [] {
      forall i | 0 <= i < |next.batch| && next.batch[i].id == id
        ensures id < |next.tasks|
             && next.tasks[id].due == if written.Some? then written.value else next.batch[i].task.due
      {
        assert next.batch[i] == db.batch[i + 1] && db.batch[0].id != db.batch[i + 1].id;
      }
    }
  }

  lemma StepKnows(db: Db, e: Event, id: nat, written: Option<Option<int>>)
    requires Inv(db) && DateKnown(db, id, written)
    ensures DateKnown(Step(db, e), id, StepWritten(db, e, id, written))
  {
    hide Consistent, IsDue, Refusal, Handle, Marked, FindDue;
    match e
    case Scan(wait) => if db.batch == [] { ScanKnows(db, wait, id); }
    case Process(env, saved, wait) => ProcessKnows(db, env, saved, wait, id, written);
    case _ =>
  }

  lemma {:induction false} RunKnows(db: Db, es: seq<Event>, id: nat, written: Option<Option<int>>)
    requires Inv(db) && DateKnown(db, id, written)
    ensures DateKnown(Run(db, es), id, Written(db, es, id, written))
    decreases |es|
  {
    hide Inv, Step, StepWritten, DateKnown;
    if es != [] {
      StepKnows(db, es[0], id, written);
      StepKeepsInv(db, es[0]);
      RunKnows(Step(db, es[0]), es[1..], id, StepWritten(db, es[0], id, written));
    }
  }

  /** An attempt before the task's due date in the table. */
  predicate Early(db: Db, e: Event, id: nat) {
    && Attempts(db, e, id) && id < |db.tasks|
    && db.tasks[id].due.Some? && db.tasks[id].due.value > db.clock + e.wait
  }

  /** The exact condition, over every run: an attempt comes before the task's due date if and only if the
      last handler to save the task since the scan of this pass wrote a date that is still to come. It never
      comes before the date the worker read. */
  lemma EarlyIffMoved(clock: int, es: seq<Event>, e: Event, id: nat)
    requires Attempts(Run(Empty(clock), es), e, id)
    ensures var db := Run(Empty(clock), es);
            var written := Written(Empty(clock), es, id, None);
            && db.batch[0].task.due.Some? && db.batch[0].task.due.value <= db.clock + e.wait
            && (Early(db, e, id)
                <==> written.Some? && written.value.Some? && written.value.value > db.clock + e.wait)
  {
    hide Refusal, Handle;
    RunKeepsInv(Empty(clock), es);
    RunKnows(Empty(clock), es, id, None);
  }

  /** And it does happen: a task moved to a later date while the worker holds its copy is published
      now, and the save puts the old date back. */
  lemma LateRescheduleIsLost(db: Db, k: nat, later: int, env: Env, wait: nat)
    requires Inv(db) && db.batch != [] && k < |db.edits| && db.edits[k].id == db.batch[0].id
    requires Handle(db.batch[0].task, env) == Sent && later > db.clock + wait
    ensures var c := db.batch[0];
            var moved := Step(db, Save(k, Fields(None, false, Some(later))));
            var done := Step(moved, Process(env, true, wait));
            && Early(moved, Process(env, true, wait), c.id) && moved.tasks[c.id].due == Some(later)
            && done.tasks[c.id].status == Published && done.tasks[c.id].due == c.task.due
            && done.tasks[c.id].publishedAt == Some(db.clock + wait)
  {
    hide Refusal;
  }
}
