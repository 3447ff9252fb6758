/** The refresh-token session of one browser tab: the client of frontend/lib/api-client.ts,
    the refresh handler of auth_handlers.go and the token table, as interleaved steps.

    First the tab's own functions and the class that runs them in place, then the transition
    function `Step` of the whole system. SessionTokens and SessionRequests prove what holds
    after every run of `Step`. */
module Session {
  import opened Common

  type Token = nat

  const REFRESH_TTL := 7 * 24 * 3600

  // ---------------------------------------------------------------- server

  /** One row of the token table, keyed by the raw token (hashing is injective). */
  datatype Row = Row(revoked: bool, expiresAt: int)

  predicate Usable(rows: map<Token, Row>, raw: Token, now: int) {
    raw in rows && !rows[raw].revoked && rows[raw].expiresAt > now
  }

  class TokenRepo {
    var rows: map<Token, Row>

    /** A token counts only while its row is there, not revoked and not expired. */
    method FindByRawToken(raw: Token, now: int) returns (found: Option<Token>)
      ensures found == if Usable(rows, raw, now) then Some(raw) else None
    {
      found := None;
      if raw in rows {
        var row := rows[raw];
        if !row.revoked && row.expiresAt > now {
          found := Some(raw);
        }
      }
    }

    method Create(raw: Token, row: Row)
      modifies this
      ensures rows == old(rows)[raw := row]
    {
      rows := rows[raw := row];
    }

    method Delete(raw: Token)
      modifies this
      ensures rows == old(rows) - {raw}
    {
      rows := map t | t in rows && t != raw :: rows[t];
    }
  }

  // ---------------------------------------------------------------- tab

  /** An access token; `exp` is None when its payload cannot be decoded. */
  datatype Access = Access(exp: Option<int>)

  /** How the shared refresh promise settles. */
  datatype Outcome = Got(access: Access) | Empty | Rejected(is401: bool)

  /** The life of one POST /auth/refresh, from the send to the settling of its promise. */
  datatype Phase =
    | Posted
    | Found
    | Cleared
    | Rotating
    | Answered(next: Token, body: Option<Access>)
    | Refused
    | Lost
    | Delivered(outcome: Outcome)

  datatype Post = Post(presented: Token, phase: Phase)

  /** What the tab owns: its cookies, its unsettled refresh posts, its pending timers and the
      two module variables `refreshInFlight` and `keepAliveTimer`. */
  datatype Tab = Tab(
    cookie: Token,
    access: Option<Access>,
    imp: bool,
    posts: map<nat, Post>,
    timers: set<nat>,
    inFlight: Option<nat>,
    keepAlive: Option<nat>,
    nextId: nat)

  function RunRefresh(t: Tab): (r: (Tab, nat)) {
    match t.inFlight
    case Some(x) => (t, x)
    case None =>
      (t.(posts := t.posts[t.nextId := Post(t.cookie, Posted)],
          inFlight := Some(t.nextId),
          nextId := t.nextId + 1),
       t.nextId)
  }

  function StopKeepAlive(t: Tab): Tab {
    match t.keepAlive
    case Some(k) => t.(timers := t.timers - {k}, keepAlive := None)
    case None => t
  }

  function StartKeepAlive(t: Tab): Tab {
    var s := StopKeepAlive(t);
    if s.access.Some? && s.access.value.exp.Some? then
      s.(timers := s.timers + {s.nextId}, keepAlive := Some(s.nextId), nextId := s.nextId + 1)
    else s
  }

  function ForceLogout(t: Tab): Tab {
    StopKeepAlive(t).(access := None, imp := false)
  }

  /** The request interceptor, run on every send and resend. */
  function BeforeSend(t: Tab): Tab {
    if t.keepAlive.None? then StartKeepAlive(t) else t
  }

  datatype Decision = Resend | GiveUp | Await(promise: nat)

  /** The response interceptor on a 401, up to its `await`. */
  function OnUnauthorized(t: Tab, retried: bool): (Tab, Decision) {
    if t.imp && !retried then (BeforeSend(t.(imp := false)), Resend)
    else if retried then (ForceLogout(t), GiveUp)
    else var (s, x) := RunRefresh(t); (s, Await(x))
  }

  /** The response interceptor after its `await`. */
  function AfterRefresh(t: Tab, outcome: Outcome): (Tab, Decision) {
    match outcome
    case Got(_) => (BeforeSend(StartKeepAlive(t)), Resend)
    case Empty => (ForceLogout(t), GiveUp)
    case Rejected(is401) => (if is401 then ForceLogout(t) else t, GiveUp)
  }

  /** The module variables and browser state of the tab, changed in place. */
  class ApiClient {
    var refreshInFlight: Option<nat>
    var keepAliveTimer: Option<nat>
    var refreshCookie: Token
    var accessCookie: Option<Access>
    var impersonating: bool
    var posts: map<nat, Post>
    var timers: set<nat>
    var nextId: nat

    function View(): Tab
      reads this
    {
      Tab(refreshCookie, accessCookie, impersonating, posts, timers, refreshInFlight, keepAliveTimer, nextId)
    }

    constructor (cookie: Token, access: Option<Access>)
      ensures View() == Tab(cookie, access, false, map[], {}, None, None, 0)
    {
      refreshInFlight, keepAliveTimer := None, None;
      refreshCookie, accessCookie, impersonating := cookie, access, false;
      posts, timers, nextId := map[], {}, 0;
    }

    method Refresh() returns (promise: nat)
      modifies this
      ensures (View(), promise) == RunRefresh(old(View()))
    {
      if refreshInFlight.None? {
        posts := posts[nextId := Post(refreshCookie, Posted)];
        refreshInFlight := Some(nextId);
        nextId := nextId + 1;
      }
      promise := refreshInFlight.value;
    }

    method StopSessionKeepAlive()
      modifies this
      ensures View() == StopKeepAlive(old(View()))
    {
      if keepAliveTimer.Some? {
        timers := timers - {keepAliveTimer.value};
        keepAliveTimer := None;
      }
    }

    method StartSessionKeepAlive()
      modifies this
      ensures View() == StartKeepAlive(old(View()))
    {
      StopSessionKeepAlive();
      if accessCookie.None? || accessCookie.value.exp.None? {
        return;
      }
      timers := timers + {nextId};
      keepAliveTimer := Some(nextId);
      nextId := nextId + 1;
    }

    method Logout()
      modifies this
      ensures View() == ForceLogout(old(View()))
    {
      StopSessionKeepAlive();
      accessCookie := None;
      impersonating := false;
    }

    method Attach()
      modifies this
      ensures View() == BeforeSend(old(View()))
    {
      if keepAliveTimer.None? {
        StartSessionKeepAlive();
      }
    }

    method Unauthorized(retried: bool) returns (d: Decision)
      modifies this
      ensures (View(), d) == OnUnauthorized(old(View()), retried)
    {
      if impersonating && !retried {
        impersonating := false;
        Attach();
        return Resend;
      }
      if retried {
        Logout();
        return GiveUp;
      }
      var promise := Refresh();
      d := Await(promise);
    }

    method Refreshed(outcome: Outcome) returns (d: Decision)
      modifies this
      ensures (View(), d) == AfterRefresh(old(View()), outcome)
    {
      match outcome
      case Got(_) =>
        StartSessionKeepAlive();
        Attach();
        d := Resend;
      case Empty =>
        Logout();
        d := GiveUp;
      case Rejected(is401) =>
        if is401 {
          Logout();
        }
        d := GiveUp;
    }
  }

  // ---------------------------------------------------------------- system

  datatype ReqPhase = Pending | Waiting(promise: nat) | Done

  /** One logical request. `clears` counts the impersonation cookies it dropped, `sets` those
      created while it lived, `impAtStart` whether one was there when it began. */
  datatype Req = Req(phase: ReqPhase, retried: bool, sends: nat, clears: nat, sets: nat, impAtStart: bool)

  /** The whole system. `mine` is the set of refresh tokens ever issued to this tab's session.
      Three histories: `struck`, the server deleted the session's row because its user was
      disabled; `missed`, it looked up a token of this tab and found no row; `lapsed`, it found
      the row but past its expiry. */
  datatype World = World(
    rows: map<Token, Row>,
    now: int,
    disabled: bool,
    tab: Tab,
    settled: map<nat, Outcome>,
    timerWaits: set<nat>,
    reqs: map<nat, Req>,
    mine: set<Token>,
    struck: bool,
    missed: bool,
    lapsed: bool)

  /** Page code, replies to ordinary requests, timers and promise continuations. */
  datatype ClientEvent =
    | Send(r: nat)
    | Reply(r: nat, unauthorized: bool)
    | RequestResumes(r: nat)
    | TimerFires(t: nat)
    | TimerResumes(x: nat)

  /** The refresh handler, statement by statement. */
  datatype ServerEvent =
    | Finds(x: nat)
    | Checks(x: nat)
    | Deletes(x: nat)
    | Creates(x: nat, next: Token, body: Option<Access>)

  /** The network and the browser: a request that never arrives, headers stored, promise settled. */
  datatype NetworkEvent = Loses(x: nat) | Stores(x: nat) | Settles(x: nat)

  /** Everything that happens around the session. */
  datatype OutsideEvent =
    | Impersonate
    | StopImpersonating
    | Tick(seconds: nat)
    | SetDisabled(b: bool)
    | OtherCreates(tok: Token, row: Row)
    | OtherDeletes(tok: Token)

  datatype Event =
    | Client(c: ClientEvent)
    | Server(s: ServerEvent)
    | Network(n: NetworkEvent)
    | Outside(o: OutsideEvent)

  /** `v` differs from `w` only in what the tokens do not depend on. */
  predicate SameServer(w: World, v: World) {
    v.rows == w.rows && v.mine == w.mine && v.struck == w.struck && v.missed == w.missed
  }

  predicate SamePosts(s: Tab, t: Tab) {
    t.posts == s.posts && t.inFlight == s.inFlight && t.cookie == s.cookie && s.nextId <= t.nextId
  }

  /** Promises handed out so far: their posts are pending or they have settled. */
  function Promises(w: World): set<nat> {
    w.tab.posts.Keys + w.settled.Keys
  }

  predicate SameRequests(w: World, v: World) {
    v.reqs == w.reqs && v.tab.imp == w.tab.imp && v.tab.access == w.tab.access && Promises(v) == Promises(w)
  }

  predicate SameTimers(s: Tab, t: Tab) {
    t.timers == s.timers && t.keepAlive == s.keepAlive && t.nextId == s.nextId
  }

  predicate At(w: World, x: nat, p: Phase) {
    x in w.tab.posts && w.tab.posts[x].phase == p
  }

  function Move(w: World, x: nat, p: Phase): (v: World)
    requires x in w.tab.posts
    ensures SameServer(w, v) && SameTimers(w.tab, v.tab) && v.tab.posts.Keys == w.tab.posts.Keys
    ensures SameRequests(w, v)
  {
    w.(tab := w.tab.(posts := w.tab.posts[x := w.tab.posts[x].(phase := p)]))
  }

  /** An impersonation cookie is set: every request still alive counts it. */
  function CountSet(reqs: map<nat, Req>): map<nat, Req> {
    map r | r in reqs :: if reqs[r].phase.Done? then reqs[r] else reqs[r].(sets := reqs[r].sets + 1)
  }

  function Decide(w: World, r: nat, t: Tab, d: Decision, q: Req): World {
    var q' :=
      match d
      case Resend => q.(phase := Pending, sends := q.sends + 1)
      case GiveUp => q.(phase := Done)
      case Await(x) => q.(phase := Waiting(x));
    w.(tab := t, reqs := w.reqs[r := q'])
  }

  function ReplyStep(w: World, r: nat, unauthorized: bool): (v: World)
    requires r in w.reqs
    ensures SameServer(w, v)
  {
    var q := w.reqs[r];
    if !unauthorized then w.(reqs := w.reqs[r := q.(phase := Done)])
    else
      var (t, d) := OnUnauthorized(w.tab, q.retried);
      Decide(w, r, t, d,
             if d.Resend? then q.(clears := q.clears + 1) else if d.Await? then q.(retried := true) else q)
  }

  function FindStep(w: World, x: nat): (v: World)
    requires x in w.tab.posts
    ensures SameTimers(w.tab, v.tab) && v.tab.posts.Keys == w.tab.posts.Keys
    ensures SameRequests(w, v)
  {
    var raw := w.tab.posts[x].presented;
    if Usable(w.rows, raw, w.now) then Move(w, x, Found)
    else Move(w, x, Refused).(missed := w.missed || raw !in w.rows,
           lapsed := w.lapsed || (raw in w.rows && w.rows[raw].expiresAt <= w.now))
  }

  function CheckStep(w: World, x: nat): (v: World)
    requires x in w.tab.posts
    ensures SameTimers(w.tab, v.tab) && v.tab.posts.Keys == w.tab.posts.Keys
    ensures SameRequests(w, v)
  {
    if w.disabled then
      Move(w, x, Refused).(rows := w.rows - {w.tab.posts[x].presented}, struck := true)
    else Move(w, x, Cleared)
  }

  function Deliver(w: World, x: nat, outcome: Outcome, cookie: Token): (v: World)
    requires x in w.tab.posts
    ensures SameServer(w, v) && SameTimers(w.tab, v.tab) && v.tab.posts.Keys == w.tab.posts.Keys
    ensures SameRequests(w, v)
  {
    w.(tab := w.tab.(posts := w.tab.posts[x := Post(w.tab.posts[x].presented, Delivered(outcome))],
                     cookie := cookie))
  }

  /** The browser processes the response headers: a 200 replaces the refresh cookie. */
  function StoreStep(w: World, x: nat): (v: World)
    requires x in w.tab.posts
    ensures SameServer(w, v) && SameTimers(w.tab, v.tab) && v.tab.posts.Keys == w.tab.posts.Keys
    ensures SameRequests(w, v)
  {
    match w.tab.posts[x].phase
    case Answered(next, body) => Deliver(w, x, if body.Some? then Got(body.value) else Empty, next)
    case Refused => Deliver(w, x, Rejected(true), w.tab.cookie)
    case Lost => Deliver(w, x, Rejected(false), w.tab.cookie)
    case _ => w
  }

  function SettleStep(w: World, x: nat): (v: World)
    requires x in w.tab.posts && w.tab.posts[x].phase.Delivered?
    ensures SameServer(w, v) && SameTimers(w.tab, v.tab) && v.tab.posts.Keys <= w.tab.posts.Keys
    ensures v.reqs == w.reqs && v.tab.imp == w.tab.imp && Promises(v) == Promises(w)
    ensures w.tab.access.Some? ==> v.tab.access.Some?
  {
    var o := w.tab.posts[x].phase.outcome;
    var t := w.tab.(posts := w.tab.posts - {x}, inFlight := None);
    w.(tab := if o.Got? then t.(access := Some(o.access)) else t, settled := w.settled[x := o])
  }

  function SendStep(w: World, r: nat): World {
    if r in w.reqs then w
    else w.(tab := BeforeSend(w.tab), reqs := w.reqs[r := Req(Pending, false, 1, 0, 0, w.tab.imp)])
  }

  function ResumeStep(w: World, r: nat): World {
    if r in w.reqs && w.reqs[r].phase.Waiting? && w.reqs[r].phase.promise in w.settled then
      var (t, d) := AfterRefresh(w.tab, w.settled[w.reqs[r].phase.promise]);
      Decide(w, r, t, d, w.reqs[r])
    else w
  }

  function FireStep(w: World, t: nat): World {
    if t in w.tab.timers then
      var (s, x) := RunRefresh(w.tab.(timers := w.tab.timers - {t}));
      w.(tab := s, timerWaits := w.timerWaits + {x})
    else w
  }

  function TimerResumeStep(w: World, x: nat): World {
    if x in w.timerWaits && x in w.settled then
      w.(timerWaits := w.timerWaits - {x},
         tab := if w.settled[x].Got? then StartKeepAlive(w.tab) else w.tab)
    else w
  }

  /** The delete and the insert of the rotation are two statements: between them is the gap. */
  function DeleteStep(w: World, x: nat): World {
    if At(w, x, Cleared) then Move(w, x, Rotating).(rows := w.rows - {w.tab.posts[x].presented}) else w
  }

  function CreateStep(w: World, x: nat, next: Token, body: Option<Access>): World {
    if At(w, x, Rotating) && next !in w.rows && next !in w.mine then
      Move(w, x, Answered(next, body)).(
        rows := w.rows[next := Row(false, w.now + REFRESH_TTL)], mine := w.mine + {next})
    else w
  }

  function ClientStep(w: World, e: ClientEvent): (v: World)
    ensures SameServer(w, v)
  {
    match e
    case Send(r) => SendStep(w, r)
    case Reply(r, unauthorized) =>
      if r in w.reqs && w.reqs[r].phase.Pending? then ReplyStep(w, r, unauthorized) else w
    case RequestResumes(r) => ResumeStep(w, r)
    case TimerFires(t) => FireStep(w, t)
    case TimerResumes(x) => TimerResumeStep(w, x)
  }

  function ServerStep(w: World, e: ServerEvent): (v: World)
    ensures SameTimers(w.tab, v.tab) && v.tab.posts.Keys == w.tab.posts.Keys
    ensures SameRequests(w, v)
    ensures w.struck ==> v.struck
    ensures v.mine != w.mine ==> e.Creates? && At(w, e.x, Rotating)
  {
    match e
    case Finds(x) => if At(w, x, Posted) then FindStep(w, x) else w
    case Checks(x) => if At(w, x, Found) then CheckStep(w, x) else w
    case Deletes(x) => DeleteStep(w, x)
    case Creates(x, next, body) => CreateStep(w, x, next, body)
  }

  function NetworkStep(w: World, e: NetworkEvent): (v: World)
    ensures SameServer(w, v) && SameTimers(w.tab, v.tab) && v.tab.posts.Keys <= w.tab.posts.Keys
    ensures v.reqs == w.reqs && v.tab.imp == w.tab.imp && Promises(v) == Promises(w)
    ensures w.tab.access.Some? ==> v.tab.access.Some?
  {
    match e
    case Loses(x) => if At(w, x, Posted) then Move(w, x, Lost) else w
    case Stores(x) => if x in w.tab.posts then StoreStep(w, x) else w
    case Settles(x) =>
      if x in w.tab.posts && w.tab.posts[x].phase.Delivered? then SettleStep(w, x) else w
  }

  function OutsideStep(w: World, e: OutsideEvent): (v: World)
    ensures v.mine == w.mine && v.struck == w.struck && v.missed == w.missed
    ensures SamePosts(w.tab, v.tab) && SameTimers(w.tab, v.tab) && v.tab.access == w.tab.access
    ensures v.settled == w.settled && v.lapsed == w.lapsed
  {
    match e
    case Impersonate => w.(tab := w.tab.(imp := true), reqs := CountSet(w.reqs))
    case StopImpersonating => w.(tab := w.tab.(imp := false))
    case Tick(seconds) => w.(now := w.now + seconds)
    case SetDisabled(b) => w.(disabled := b)
    case OtherCreates(tok, row) =>
      if tok in w.rows || tok in w.mine then w else w.(rows := w.rows[tok := row])
    case OtherDeletes(tok) => if tok in w.mine then w else w.(rows := w.rows - {tok})
  }

  function Step(w: World, e: Event): World {
    match e
    case Client(c) => ClientStep(w, c)
    case Server(s) => ServerStep(w, s)
    case Network(n) => NetworkStep(w, n)
    case Outside(o) => OutsideStep(w, o)
  }

  function Run(w: World, es: seq<Event>): World
    decreases |es|
  {
    if es == [] then w else Run(Step(w, es[0]), es[1..])
  }

  /** A tab just after a successful login. Other sessions' rows may be in the table. */
  predicate LoggedIn(w: World) {
    && w.tab.posts == map[] && w.tab.inFlight.None? && w.tab.timers == {} && w.tab.keepAlive.None?
    && w.tab.cookie in w.rows && !w.rows[w.tab.cookie].revoked && w.mine == {w.tab.cookie}
    && w.settled == map[] && w.timerWaits == {} && w.reqs == map[] && !w.struck && !w.missed && !w.lapsed
  }
}
