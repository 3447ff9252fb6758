/** The per-plan quota on SEO projects: a gate that counts, and writes that come later. Between the
    two, other requests, deletes and background jobs may run. */
module Quota {
  import opened Common

  datatype Goal = Seo | Social | Both

  predicate IsSEO(goal: Goal) {
    goal == Seo || goal == Both
  }

  /** A project row; its id is its position in the table. */
  datatype Project = Project(user: nat, goal: Goal, deleted: bool)

  /** What a request wants after the gate: insert a row (create, onboard), or edit one. */
  datatype Work = Create(goal: Goal) | Edit(id: nat, goal: Goal)

  datatype Phase = Gated | Loaded(row: Project) | Finished

  datatype Request = Request(user: nat, work: Work, phase: Phase)

  /** A row that a background job (crawl of a new project, health scorer) has read and will save back. */
  datatype Copy = Copy(id: nat, row: Project)

  datatype Db = Db(projects: seq<Project>, requests: seq<Request>, copies: seq<Copy>)

  /** `limit` is the plan's `max_sites` as resolved at the gate, None when the plan cannot be resolved. */
  datatype Event =
    | Gate(user: nat, work: Work, limit: Option<int>)
    | Load(request: nat)
    | Write(request: nat)
    | Delete(user: nat, id: nat)
    | JobLoad(id: nat)
    | JobSave(copy: nat)

  // ---------------------------------------------------------------- counting

  function Counted(user: nat): Project -> bool {
    (p: Project) => p.user == user && IsSEO(p.goal) && !p.deleted
  }

  function Waiting(user: nat): Request -> bool {
    (r: Request) => r.user == user && IsSEO(r.work.goal) && !r.phase.Finished?
  }

  /** `CountSEOByUser`. */
  function Sites(db: Db, user: nat): nat {
    CountIf(db.projects, Counted(user))
  }

  /** Requests of the user that passed the gate with an SEO goal and have not written yet. */
  function Pending(db: Db, user: nat): nat {
    CountIf(db.requests, Waiting(user))
  }

  // ---------------------------------------------------------------- steps

  /** `CanCreateSEOProject` behind `gateSEOProject`. */
  predicate Admits(db: Db, user: nat, goal: Goal, limit: Option<int>) {
    limit.Some? && (IsSEO(goal) ==> Sites(db, user) < limit.value)
  }

  function StepGate(db: Db, user: nat, work: Work, limit: Option<int>): Db {
    if Admits(db, user, work.goal, limit)
    then db.(requests := db.requests + [Request(user, work, Gated)])
    else db
  }

  predicate Owned(projects: seq<Project>, id: nat, user: nat) {
    id < |projects| && projects[id].user == user && !projects[id].deleted
  }

  function Phased(db: Db, request: nat, phase: Phase): seq<Request>
    requires request < |db.requests|
  {
    db.requests[request := db.requests[request].(phase := phase)]
  }

  /** An edit finds its row, or ends with 404. */
  function StepLoad(db: Db, request: nat): Db {
    if request < |db.requests| && db.requests[request].phase.Gated? && db.requests[request].work.Edit? then
      var r := db.requests[request];
      var phase := if Owned(db.projects, r.work.id, r.user) then Loaded(db.projects[r.work.id]) else Finished;
      db.(requests := Phased(db, request, phase))
    else db
  }

  /** A create inserts its row; an edit saves the whole row it loaded, with the new goal. */
  function StepWrite(db: Db, request: nat): Db {
    if request >= |db.requests| then db
    else
      var r := db.requests[request];
      if r.work.Create? && r.phase.Gated? then
        db.(projects := db.projects + [Project(r.user, r.work.goal, false)],
            requests := Phased(db, request, Finished))
      else if r.work.Edit? && r.phase.Loaded? && r.work.id < |db.projects| then
        db.(projects := db.projects[r.work.id := r.phase.row.(goal := r.work.goal)],
            requests := Phased(db, request, Finished))
      else db
  }

  function StepDelete(db: Db, user: nat, id: nat): Db {
    if Owned(db.projects, id, user)
    then db.(projects := db.projects[id := db.projects[id].(deleted := true)])
    else db
  }

  function StepJobLoad(db: Db, id: nat): Db {
    if id < |db.projects| && !db.projects[id].deleted
    then db.(copies := db.copies + [Copy(id, db.projects[id])])
    else db
  }

  function StepJobSave(db: Db, copy: nat): Db {
    if copy < |db.copies| && db.copies[copy].id < |db.projects|
    then db.(projects := db.projects[db.copies[copy].id := db.copies[copy].row])
    else db
  }

  function Step(db: Db, e: Event): Db {
    match e
    case Gate(user, work, limit) => StepGate(db, user, work, limit)
    case Load(request) => StepLoad(db, request)
    case Write(request) => StepWrite(db, request)
    case Delete(user, id) => StepDelete(db, user, id)
    case JobLoad(id) => StepJobLoad(db, id)
    case JobSave(copy) => StepJobSave(db, copy)
  }

  function Run(db: Db, es: seq<Event>): Db
    decreases |es|
  {
    if es == [] then db else Run(Step(db, es[0]), es[1..])
  }

  // ---------------------------------------------------------------- in place

  class ProjectStore {
    var projects: seq<Project>
    var requests: seq<Request>
    var copies: seq<Copy>

    function View(): Db
      reads this
    {
      Db(projects, requests, copies)
    }

    constructor ()
      ensures View() == Db([], [], [])
    {
      projects, requests, copies := [], [], [];
    }

    method CountSEOByUser(user: nat) returns (n: nat)
      ensures n == Sites(View(), user)
    {
      n := 0;
      var i := 0;
      while i < |projects|
        invariant i <= |projects| && n == CountIf(projects[..i], Counted(user))
      {
        assert projects[..i + 1][..i] == projects[..i];
        if projects[i].user == user && IsSEO(projects[i].goal) && !projects[i].deleted {
          n := n + 1;
        }
        i := i + 1;
      }
      assert projects[..i] == projects;
    }

    method GateRequest(user: nat, work: Work, limit: Option<int>) returns (allowed: bool)
      modifies this`requests
      ensures View() == StepGate(old(View()), user, work, limit)
      ensures allowed <==> Admits(old(View()), user, work.goal, limit)
    {
      if limit.None? {
        return false;
      }
      if IsSEO(work.goal) {
        var current := CountSEOByUser(user);
        if current >= limit.value {
          return false;
        }
      }
      requests := requests + [Request(user, work, Gated)];
      allowed := true;
    }

    method LoadForEdit(request: nat)
      modifies this`requests
      ensures View() == StepLoad(old(View()), request)
    {
      if request < |requests| && requests[request].phase.Gated? && requests[request].work.Edit? {
        var r := requests[request];
        if Owned(projects, r.work.id, r.user) {
          r := r.(phase := Loaded(projects[r.work.id]));
        } else {
          r := r.(phase := Finished);
        }
        requests := requests[request := r];
      }
    }

    method WriteRequest(request: nat)
      modifies this`projects, this`requests
      ensures View() == StepWrite(old(View()), request)
    {
      if request < |requests| {
        var r := requests[request];
        if r.work.Create? && r.phase.Gated? {
          projects := projects + [Project(r.user, r.work.goal, false)];
          requests := requests[request := r.(phase := Finished)];
        } else if r.work.Edit? && r.phase.Loaded? && r.work.id < |projects| {
          var row := r.phase.row;
          row := row.(goal := r.work.goal);
          projects := projects[r.work.id := row];
          requests := requests[request := r.(phase := Finished)];
        }
      }
    }

    method DeleteProject(user: nat, id: nat)
      modifies this`projects
      ensures View() == StepDelete(old(View()), user, id)
    {
      if Owned(projects, id, user) {
        projects := projects[id := projects[id].(deleted := true)];
      }
    }

    method LoadCopy(id: nat)
      modifies this`copies
      ensures View() == StepJobLoad(old(View()), id)
    {
      if id < |projects| && !projects[id].deleted {
        copies := copies + [Copy(id, projects[id])];
      }
    }

    method SaveCopy(copy: nat)
      modifies this`projects
      ensures View() == StepJobSave(old(View()), copy)
    {
      if copy < |copies| && copies[copy].id < |projects| {
        projects := projects[copies[copy].id := copies[copy].row];
      }
    }
  }

  // ---------------------------------------------------------------- the bound

  /** An edit has loaded a row of its own user. */
  predicate Sound(db: Db) {
    forall i | 0 <= i < |db.requests| && db.requests[i].phase.Loaded? ::
      db.requests[i].phase.row.user == db.requests[i].user
  }

  lemma StepKeepsSound(db: Db, e: Event)
    requires Sound(db)
    ensures Sound(Step(db, e))
  {
  }

  function Held(db: Db, user: nat): nat {
    Sites(db, user) + Pending(db, user)
  }

  /** A background save that turns a row the user's count does not include (edited to social, or
      deleted, since it was read) back into a counted one. */
  predicate Revives(db: Db, e: Event, user: nat) {
    && e.JobSave? && e.copy < |db.copies| && db.copies[e.copy].id < |db.projects|
    && Counted(user)(db.copies[e.copy].row)
    && !Counted(user)(db.projects[db.copies[e.copy].id])
  }

  lemma GateHeld(db: Db, actor: nat, work: Work, limit: Option<int>, user: nat)
    ensures var next := StepGate(db, actor, work, limit);
            && Sites(next, user) == Sites(db, user)
            && (Held(next, user) <= Held(db, user)
                || (user == actor && limit.Some? && Sites(next, user) < limit.value))
  {
    CountAppend(db.requests, Waiting(user), Request(actor, work, Gated));
  }

  lemma LoadHeld(db: Db, request: nat, user: nat)
    ensures Held(StepLoad(db, request), user) <= Held(db, user)
  {
    if request < |db.requests| {
      var r := db.requests[request];
      CountUpdate(db.requests, Waiting(user), request, r.(phase := Finished));
      if r.work.Edit? && Owned(db.projects, r.work.id, r.user) {
        CountUpdate(db.requests, Waiting(user), request, r.(phase := Loaded(db.projects[r.work.id])));
      }
    }
  }

  lemma WriteHeld(db: Db, request: nat, user: nat)
    requires Sound(db)
    ensures Held(StepWrite(db, request), user) <= Held(db, user)
  {
    if request < |db.requests| {
      var r := db.requests[request];
      CountUpdate(db.requests, Waiting(user), request, r.(phase := Finished));
      if r.work.Create? {
        CountAppend(db.projects, Counted(user), Project(r.user, r.work.goal, false));
      } else if r.phase.Loaded? && r.work.id < |db.projects| {
        CountUpdate(db.projects, Counted(user), r.work.id, r.phase.row.(goal := r.work.goal));
      }
    }
  }

  lemma DeleteHeld(db: Db, actor: nat, id: nat, user: nat)
    ensures Held(StepDelete(db, actor, id), user) <= Held(db, user)
  {
    if id < |db.projects| {
      CountUpdate(db.projects, Counted(user), id, db.projects[id].(deleted := true));
    }
  }

  lemma JobSaveHeld(db: Db, copy: nat, user: nat)
    ensures Held(StepJobSave(db, copy), user) <= Held(db, user) + (if Revives(db, JobSave(copy), user) then 1 else 0)
  {
    if copy < |db.copies| && db.copies[copy].id < |db.projects| {
      CountUpdate(db.projects, Counted(user), db.copies[copy].id, db.copies[copy].row);
    }
  }

  /** No step adds to sites plus pending requests, except a gate that saw room and a revival. */
  lemma StepHeldBound(db: Db, e: Event, user: nat)
    requires Sound(db)
    ensures var next := Step(db, e);
            || Held(next, user) <= Held(db, user) + (if Revives(db, e, user) then 1 else 0)
            || (e.Gate? && e.user == user && e.limit.Some? && Sites(next, user) < e.limit.value)
  {
    match e
    case Gate(actor, work, limit) => GateHeld(db, actor, work, limit, user);
    case Load(request) => LoadHeld(db, request, user);
    case Write(request) => WriteHeld(db, request, user);
    case Delete(actor, id) => DeleteHeld(db, actor, id, user);
    case JobLoad(id) =>
    case JobSave(copy) => JobSaveHeld(db, copy, user);
  }

  /** Every limit resolved for the user in the run is at most `most`. */
  predicate LimitsAtMost(es: seq<Event>, user: nat, most: int) {
    forall e | e in es && e.Gate? && e.user == user && e.limit.Some? :: e.limit.value <= most
  }

  /** At no time are more than `n` of the user's SEO requests between gate and write. */
  predicate AtMostPending(db: Db, es: seq<Event>, user: nat, n: nat)
    decreases |es|
  {
    Pending(db, user) <= n && (es != [] ==> AtMostPending(Step(db, es[0]), es[1..], user, n))
  }

  function Revivals(db: Db, es: seq<Event>, user: nat): nat
    decreases |es|
  {
    if es == [] then 0
    else (if Revives(db, es[0], user) then 1 else 0) + Revivals(Step(db, es[0]), es[1..], user)
  }

  lemma {:induction false} RunBound(db: Db, es: seq<Event>, user: nat, most: int, n: nat, bound: int)
    requires Sound(db) && LimitsAtMost(es, user, most) && AtMostPending(db, es, user, n)
    requires Held(db, user) <= bound && most - 1 + n <= bound
    ensures Held(Run(db, es), user) <= bound + Revivals(db, es, user)
    decreases |es|
  {
    if es != [] {
      var next := Step(db, es[0]);
      StepKeepsSound(db, es[0]);
      StepHeldBound(db, es[0], user);
      var revived := if Revives(db, es[0], user) then 1 else 0;
      assert es[0] in es;
      assert LimitsAtMost(es[1..], user, most) by {
        forall e | e in es[1..] ensures e in es {}
      }
      RunBound(next, es[1..], user, most, n, bound + revived);
    }
  }

  /** With the gate and the write as separate steps and at most `n` requests between them, sites plus
      pending requests never exceed the larger of where they started and `most - 1 + n`, plus one for
      every background save that revived a row. */
  lemma QuotaBound(db: Db, es: seq<Event>, user: nat, most: int, n: nat)
    requires Sound(db) && LimitsAtMost(es, user, most) && AtMostPending(db, es, user, n)
    ensures var start := Held(db, user);
            Held(Run(db, es), user)
            <= (if start >= most - 1 + n then start else most - 1 + n) + Revivals(db, es, user)
  {
    var start := Held(db, user);
    RunBound(db, es, user, most, n, if start >= most - 1 + n then start else most - 1 + n);
  }

  /** At every moment the user's sites plus pending requests are within the bound. */
  predicate HeldWithin(db: Db, es: seq<Event>, user: nat, bound: int)
    decreases |es|
  {
    Held(db, user) <= bound && (es != [] ==> HeldWithin(Step(db, es[0]), es[1..], user, bound))
  }

  /** No background save revives a row of the user when the bound is already reached. */
  predicate NeverRevivesAt(db: Db, es: seq<Event>, user: nat, bound: int)
    decreases |es|
  {
    es != [] ==>
      && !(Revives(db, es[0], user) && Held(db, user) == bound)
      && NeverRevivesAt(Step(db, es[0]), es[1..], user, bound)
  }

  lemma RevivalHeld(db: Db, e: Event, user: nat)
    requires Revives(db, e, user)
    ensures Held(Step(db, e), user) == Held(db, user) + 1
  {
    CountUpdate(db.projects, Counted(user), db.copies[e.copy].id, db.copies[e.copy].row);
  }

  /** The exact condition, for any number `n` of overlapping requests: sites plus pending requests stay within
      `most - 1 + n` at every moment if and only if no background save revives a row when they have
      reached it. */
  lemma {:induction false} HeldWithinIff(db: Db, es: seq<Event>, user: nat, most: int, n: nat, bound: int)
    requires Sound(db) && LimitsAtMost(es, user, most) && AtMostPending(db, es, user, n)
    requires Held(db, user) <= bound && most - 1 + n <= bound
    ensures HeldWithin(db, es, user, bound) <==> NeverRevivesAt(db, es, user, bound)
    decreases |es|
  {
    hide Step, Sound, Revives, Sites;
    if es != [] {
      var next := Step(db, es[0]);
      StepKeepsSound(db, es[0]);
      StepHeldBound(db, es[0], user);
      assert es[0] in es;
      assert LimitsAtMost(es[1..], user, most) by {
        forall e | e in es[1..] ensures e in es {}
      }
      if Revives(db, es[0], user) { RevivalHeld(db, es[0], user); }
      if Held(next, user) <= bound {
        HeldWithinIff(next, es[1..], user, most, n, bound);
      } else {
        assert !HeldWithin(next, es[1..], user, bound);
      }
    }
  }

  /** One request at a time: whoever starts within the limit stays within it at every moment, also under goal
      edits and deletes, if and only if no background save revives a row at the limit. */
  lemma SequentialQuota(db: Db, es: seq<Event>, user: nat, most: int)
    requires Sound(db) && LimitsAtMost(es, user, most) && AtMostPending(db, es, user, 1) && Held(db, user) <= most
    ensures HeldWithin(db, es, user, most) <==> NeverRevivesAt(db, es, user, most)
    ensures NeverRevivesAt(db, es, user, most) ==> Sites(Run(db, es), user) <= most
  {
    HeldWithinIff(db, es, user, most, 1, most);
    if HeldWithin(db, es, user, most) { WithinAtTheEnd(db, es, user, most); }
  }

  lemma {:induction false} WithinAtTheEnd(db: Db, es: seq<Event>, user: nat, bound: int)
    requires HeldWithin(db, es, user, bound)
    ensures Sites(Run(db, es), user) <= bound
    decreases |es|
  {
    hide Step;
    if es != [] { WithinAtTheEnd(Step(db, es[0]), es[1..], user, bound); }
  }

  // ---------------------------------------------------------------- the bound is tight

  const EMPTY := Db([], [], [])

  function CreateSite(user: nat, limit: int): Event {
    Gate(user, Create(Seo), Some(limit))
  }

  /** `k` creates one after the other, the first of them request number `i`. */
  function OneByOne(user: nat, limit: int, i: nat, k: nat): seq<Event>
    decreases k
  {
    if k == 0 then [] else [CreateSite(user, limit), Write(i)] + OneByOne(user, limit, i + 1, k - 1)
  }

  function Gates(user: nat, limit: int, k: nat): seq<Event> {
    if k == 0 then [] else [CreateSite(user, limit)] + Gates(user, limit, k - 1)
  }

  function Writes(i: nat, k: nat): seq<Event>
    decreases k
  {
    if k == 0 then [] else [Write(i)] + Writes(i + 1, k - 1)
  }

  lemma {:induction false} Joined(db: Db, a: seq<Event>, b: seq<Event>, user: nat, n: nat)
    ensures Run(db, a + b) == Run(Run(db, a), b)
    ensures Revivals(db, a + b, user) == Revivals(db, a, user) + Revivals(Run(db, a), b, user)
    ensures AtMostPending(db, a, user, n) && AtMostPending(Run(db, a), b, user, n)
         ==> AtMostPending(db, a + b, user, n)
    decreases |a|
  {
    if a == [] {
      assert a + b == b;
    } else {
      assert (a + b)[1..] == a[1..] + b;
      Joined(Step(db, a[0]), a[1..], b, user, n);
    }
  }

  lemma NoMore(db: Db, user: nat, n: nat)
    requires Pending(db, user) <= n
    ensures Run(db, []) == db && Revivals(db, [], user) == 0 && AtMostPending(db, [], user, n)
  {
  }

  lemma OneMore(db: Db, e: Event, es: seq<Event>, user: nat, n: nat)
    requires Pending(db, user) <= n && !Revives(db, e, user)
    ensures Run(db, [e] + es) == Run(Step(db, e), es)
    ensures Revivals(db, [e] + es, user) == Revivals(Step(db, e), es, user)
    ensures AtMostPending(Step(db, e), es, user, n) ==> AtMostPending(db, [e] + es, user, n)
  {
    assert ([e] + es)[1..] == es;
  }

  /** A table with `sites` rows, and requests of which the last `pending` wait to create. */
  predicate Shape(db: Db, user: nat, sites: nat, pending: nat) {
    && Sites(db, user) == sites && Pending(db, user) == pending && pending <= |db.requests|
    && forall i | |db.requests| - pending <= i < |db.requests| ::
         db.requests[i] == Request(user, Create(Seo), Gated)
  }

  lemma GateShape(db: Db, user: nat, limit: int, sites: nat, pending: nat)
    requires Shape(db, user, sites, pending) && sites < limit
    ensures var next := Step(db, CreateSite(user, limit));
            Shape(next, user, sites, pending + 1) && |next.requests| == |db.requests| + 1
  {
    CountAppend(db.requests, Waiting(user), Request(user, Create(Seo), Gated));
  }

  lemma WriteShape(db: Db, user: nat, sites: nat, pending: nat)
    requires Shape(db, user, sites, pending) && pending > 0
    ensures var next := Step(db, Write(|db.requests| - pending));
            Shape(next, user, sites + 1, pending - 1) && |next.requests| == |db.requests|
  {
    var i := |db.requests| - pending;
    CountUpdate(db.requests, Waiting(user), i, db.requests[i].(phase := Finished));
    CountAppend(db.projects, Counted(user), Project(user, Seo, false));
  }

  lemma {:induction false} OneByOneFills(db: Db, user: nat, limit: int, sites: nat, k: nat, n: nat)
    requires Shape(db, user, sites, 0) && sites + k <= limit && n >= 1
    ensures var es := OneByOne(user, limit, |db.requests|, k);
            && Shape(Run(db, es), user, sites + k, 0) && AtMostPending(db, es, user, n)
            && Revivals(db, es, user) == 0 && LimitsAtMost(es, user, limit)
    decreases k
  {
    if k > 0 {
      hide Run, AtMostPending, Revivals, Step;
      var i := |db.requests|;
      var gate, write := CreateSite(user, limit), Write(i);
      var rest := OneByOne(user, limit, i + 1, k - 1);
      var mid := Step(db, gate);
      GateShape(db, user, limit, sites, 0);
      WriteShape(mid, user, sites, 1);
      OneByOneFills(Step(mid, write), user, limit, sites + 1, k - 1, n);
      OneMore(mid, write, rest, user, n);
      OneMore(db, gate, [write] + rest, user, n);
      assert [gate, write] + rest == [gate] + ([write] + rest);
    }
  }

  lemma {:induction false} GatesFill(db: Db, user: nat, limit: int, sites: nat, pending: nat, k: nat, n: nat)
    requires Shape(db, user, sites, pending) && sites < limit && pending + k <= n
    ensures var es := Gates(user, limit, k);
            && Shape(Run(db, es), user, sites, pending + k) && AtMostPending(db, es, user, n)
            && Revivals(db, es, user) == 0 && LimitsAtMost(es, user, limit)
            && |Run(db, es).requests| == |db.requests| + k
    decreases k
  {
    if k > 0 {
      var es := Gates(user, limit, k);
      GateShape(db, user, limit, sites, pending);
      GatesFill(Step(db, CreateSite(user, limit)), user, limit, sites, pending + 1, k - 1, n);
      assert es[1..] == Gates(user, limit, k - 1);
    }
  }

  lemma {:induction false} WritesFill(db: Db, user: nat, limit: int, sites: nat, k: nat, n: nat)
    requires Shape(db, user, sites, k) && k <= n
    ensures var es := Writes(|db.requests| - k, k);
            && Sites(Run(db, es), user) == sites + k && AtMostPending(db, es, user, n)
            && Revivals(db, es, user) == 0 && LimitsAtMost(es, user, limit)
    decreases k
  {
    if k > 0 {
      var i := |db.requests| - k;
      var es := Writes(i, k);
      WriteShape(db, user, sites, k);
      WritesFill(Step(db, Write(i)), user, limit, sites + 1, k - 1, n);
      assert es[1..] == Writes(i + 1, k - 1);
    }
  }

  /** Nothing smaller will do: for every limit and width some run from the empty tables, without any
      revival, ends with exactly `limit - 1 + n` sites. */
  lemma BoundIsTight(user: nat, limit: nat, n: nat) returns (es: seq<Event>)
    requires limit >= 1 && n >= 1
    ensures LimitsAtMost(es, user, limit) && AtMostPending(EMPTY, es, user, n) && Revivals(EMPTY, es, user) == 0
    ensures Sites(Run(EMPTY, es), user) == limit - 1 + n
  {
    hide Step, Run, AtMostPending, Revivals;
    var a := OneByOne(user, limit, 0, limit - 1);
    OneByOneFills(EMPTY, user, limit, 0, limit - 1, n);
    var one := Run(EMPTY, a);
    var b := Gates(user, limit, n);
    GatesFill(one, user, limit, limit - 1, 0, n, n);
    var two := Run(one, b);
    var c := Writes(|two.requests| - n, n);
    WritesFill(two, user, limit, limit - 1, n, n);
    Joined(EMPTY, a, b, user, n);
    Joined(EMPTY, a + b, c, user, n);
    es := a + b + c;
  }

  // ---------------------------------------------------------------- what breaks it

  /** A background save lets the count grow exactly when it revives a row. */
  lemma SaveGrowsIffRevives(db: Db, copy: nat, user: nat)
    ensures Sites(Step(db, JobSave(copy)), user) > Sites(db, user) <==> Revives(db, JobSave(copy), user)
  {
    if copy < |db.copies| && db.copies[copy].id < |db.projects| {
      CountUpdate(db.projects, Counted(user), db.copies[copy].id, db.copies[copy].row);
    }
  }

  function Reading(user: nat): seq<Event> {
    [CreateSite(user, 1)] + ([Write(0)] + ([JobLoad(0)] + []))
  }

  function Editing(user: nat): seq<Event> {
    [Gate(user, Edit(0, Social), Some(1))] + ([Load(1)] + ([Write(1)] + []))
  }

  function Moving(user: nat): seq<Event> {
    [CreateSite(user, 1)] + ([Write(2)] + [])
  }

  lemma ReadingRun(db: Db, user: nat)
    requires |db.projects| == 0 && |db.requests| == 0 && |db.copies| == 0 && Shape(db, user, 0, 0)
    ensures var next := Run(db, Reading(user));
            && next.projects == [Project(user, Seo, false)] && |next.requests| == 1
            && next.copies == [Copy(0, Project(user, Seo, false))] && Shape(next, user, 1, 0)
    ensures AtMostPending(db, Reading(user), user, 1) && Revivals(db, Reading(user), user) == 0
  {
    hide Run, AtMostPending, Revivals;
    var s1 := Step(db, CreateSite(user, 1));
    var s2 := Step(s1, Write(0));
    GateShape(db, user, 1, 0, 0);
    WriteShape(s1, user, 0, 1);
    NoMore(Step(s2, JobLoad(0)), user, 1);
    OneMore(s2, JobLoad(0), [], user, 1);
    OneMore(s1, Write(0), [JobLoad(0)] + [], user, 1);
    OneMore(db, CreateSite(user, 1), [Write(0)] + ([JobLoad(0)] + []), user, 1);
  }

  lemma EditingSteps(db: Db, user: nat)
    requires db.projects == [Project(user, Seo, false)] && |db.requests| == 1 && Shape(db, user, 1, 0)
    ensures var s1 := Step(db, Gate(user, Edit(0, Social), Some(1)));
            var s2 := Step(s1, Load(1));
            var s3 := Step(s2, Write(1));
            && Pending(s1, user) <= 1 && Pending(s2, user) <= 1
            && s3.projects == [Project(user, Social, false)] && |s3.requests| == 2 && s3.copies == db.copies
            && Shape(s3, user, 0, 0)
  {
    var s1 := Step(db, Gate(user, Edit(0, Social), Some(1)));
    var s2 := Step(s1, Load(1));
    var s3 := Step(s2, Write(1));
    CountAppend(db.requests, Waiting(user), Request(user, Edit(0, Social), Gated));
    CountUpdate(s1.requests, Waiting(user), 1, s2.requests[1]);
    CountUpdate(s2.requests, Waiting(user), 1, s3.requests[1]);
    CountUpdate(s2.projects, Counted(user), 0, s3.projects[0]);
  }

  /** The user's only site is edited to social: the gate lets any social edit pass. */
  lemma EditingRun(db: Db, user: nat)
    requires db.projects == [Project(user, Seo, false)] && |db.requests| == 1 && Shape(db, user, 1, 0)
    ensures var next := Run(db, Editing(user));
            && next.projects == [Project(user, Social, false)] && |next.requests| == 2
            && next.copies == db.copies && Shape(next, user, 0, 0)
    ensures AtMostPending(db, Editing(user), user, 1) && Revivals(db, Editing(user), user) == 0
  {
    hide Run, AtMostPending, Revivals, Step, Sites, Pending;
    var gate := Gate(user, Edit(0, Social), Some(1));
    var s1 := Step(db, gate);
    var s2 := Step(s1, Load(1));
    EditingSteps(db, user);
    NoMore(Step(s2, Write(1)), user, 1);
    OneMore(s2, Write(1), [], user, 1);
    OneMore(s1, Load(1), [Write(1)] + [], user, 1);
    OneMore(db, gate, [Load(1)] + ([Write(1)] + []), user, 1);
  }

  lemma MovingRun(db: Db, user: nat)
    requires |db.projects| == 1 && |db.requests| == 2 && Shape(db, user, 0, 0)
    ensures var next := Run(db, Moving(user));
            && |next.projects| == 2 && next.projects[0] == db.projects[0]
            && next.copies == db.copies && Shape(next, user, 1, 0)
    ensures AtMostPending(db, Moving(user), user, 1) && Revivals(db, Moving(user), user) == 0
  {
    hide Run, AtMostPending, Revivals;
    var s1 := Step(db, CreateSite(user, 1));
    GateShape(db, user, 1, 0, 0);
    WriteShape(s1, user, 0, 1);
    NoMore(Step(s1, Write(2)), user, 1);
    OneMore(s1, Write(2), [], user, 1);
    OneMore(db, CreateSite(user, 1), [Write(2)] + [], user, 1);
  }

  /** Even one request at a time: a crawl reads a site, the site is edited to social, a new site takes
      its place, and the crawl's save brings the old one back: two sites on a plan for one. */
  lemma StaleSaveExceedsLimit(user: nat)
    ensures var es := Reading(user) + Editing(user) + Moving(user);
            && LimitsAtMost(es, user, 1) && AtMostPending(EMPTY, es, user, 1) && Revivals(EMPTY, es, user) == 0
            && Sites(Run(EMPTY, es), user) == 1
            && Sites(Step(Run(EMPTY, es), JobSave(0)), user) == 2
  {
    hide Step, Run, AtMostPending, Revivals;
    ReadingRun(EMPTY, user);
    var db := Run(EMPTY, Reading(user));
    EditingRun(db, user);
    var edited := Run(db, Editing(user));
    MovingRun(edited, user);
    var moved := Run(edited, Moving(user));
    Joined(EMPTY, Reading(user), Editing(user), user, 1);
    Joined(EMPTY, Reading(user) + Editing(user), Moving(user), user, 1);
    StaleSave(moved, user);
  }

  lemma StaleSave(db: Db, user: nat)
    requires |db.projects| == 2 && db.projects[0] == Project(user, Social, false)
    requires db.copies == [Copy(0, Project(user, Seo, false))]
    ensures Sites(Step(db, JobSave(0)), user) == Sites(db, user) + 1
  {
    CountUpdate(db.projects, Counted(user), 0, db.copies[0].row);
  }
}
