/** What the steps of the session bring about: a refresh that comes through heals the session, and every
    request ends as its answers say. */
module SessionEffects {
  import opened Common
  import opened Session
  import opened SessionTokens
  import opened SessionRequests

  // ---------------------------------------------------------------- the keep-alive timer

  predicate Readable(t: Tab) {
    t.access.Some? && t.access.value.exp.Some?
  }

  /** One timer is pending, started after the tab `s`, exactly when the access token's expiry can be read. */
  predicate Restarted(s: Tab, t: Tab) {
    if Readable(t) then t.keepAlive.Some? && t.timers == {t.keepAlive.value} && t.keepAlive.value >= s.nextId
    else t.keepAlive.None? && t.timers == {}
  }

  predicate LoggedOut(t: Tab) {
    t.access.None? && !t.imp && t.keepAlive.None? && t.timers == {}
  }

  predicate SameCookies(s: Tab, t: Tab) {
    t.access == s.access && t.imp == s.imp && t.cookie == s.cookie
  }

  lemma StartRestarts(t: Tab)
    requires TimerInv(t)
    ensures var s := StartKeepAlive(t);
            Restarted(t, s) && SameCookies(t, s) && SamePosts(t, s)
  {
  }

  /** Every send starts the timer when none is named, and leaves a named one alone. */
  lemma SendStarts(t: Tab)
    requires TimerInv(t)
    ensures var s := BeforeSend(t);
            && SameCookies(t, s) && SamePosts(t, s)
            && (if t.keepAlive.Some? then SameTimers(t, s) else Restarted(t, s))
  {
    StartRestarts(t);
  }

  lemma LogoutEnds(t: Tab)
    requires TimerInv(t)
    ensures LoggedOut(ForceLogout(t)) && SamePosts(t, ForceLogout(t))
  {
  }

  // ---------------------------------------------------------------- requests

  predicate OnlyRequest(w: World, v: World, r: nat) {
    && v.reqs.Keys == w.reqs.Keys + {r}
    && (forall q | q in w.reqs && q != r :: v.reqs[q] == w.reqs[q])
    && v.settled == w.settled && v.timerWaits == w.timerWaits
  }

  predicate WaitsSettled(w: World, r: nat) {
    r in w.reqs && w.reqs[r].phase.Waiting? && w.reqs[r].phase.promise in w.settled
  }

  /** A request whose refresh has settled is sent again if and only if the refresh brought a token, with the
      timer restarted; else it ends, the user logged out when the answer held no token or was a 401, and
      nothing at all changed in the tab on a network error. */
  lemma ResumeResends(w: World, r: nat)
    requires TimerInv(w.tab) && WaitsSettled(w, r)
    ensures var v := Step(w, Client(RequestResumes(r)));
            var q, o := w.reqs[r], w.settled[w.reqs[r].phase.promise];
            && OnlyRequest(w, v, r)
            && v.reqs[r] == (if o.Got? then q.(phase := Pending, sends := q.sends + 1) else q.(phase := Done))
            && (o.Got? ==> Restarted(w.tab, v.tab) && SameCookies(w.tab, v.tab) && SamePosts(w.tab, v.tab))
            && (o == Empty || o == Rejected(true) ==> LoggedOut(v.tab) && SamePosts(w.tab, v.tab))
            && (o == Rejected(false) ==> v.tab == w.tab)
  {
    StartRestarts(w.tab);
    LogoutEnds(w.tab);
    KeepAliveKeepsTimer(w.tab);
    SendStarts(StartKeepAlive(w.tab));
  }

  predicate AwaitsReply(w: World, r: nat) {
    r in w.reqs && w.reqs[r].phase.Pending?
  }

  /** The refresh in flight is the one there was, or a new one that presents the cookie. */
  predicate SharesRefresh(s: Tab, t: Tab) {
    && SameCookies(s, t) && t.inFlight.Some?
    && (if s.inFlight.Some? then t.inFlight == s.inFlight && t.posts == s.posts
        else t.posts == s.posts[t.inFlight.value := Post(s.cookie, Posted)] && t.inFlight.value !in s.posts)
  }

  lemma RefreshShares(t: Tab)
    requires OneShared(t)
    ensures var (s, x) := RunRefresh(t);
            SharesRefresh(t, s) && s.inFlight == Some(x) && s.timers == t.timers && s.keepAlive == t.keepAlive
  {
  }

  /** A first 401 under impersonation drops that cookie and resends. */
  lemma ImpersonatedReply(w: World, r: nat)
    requires TimerInv(w.tab) && AwaitsReply(w, r) && !w.reqs[r].retried && w.tab.imp
    ensures var v := Step(w, Client(Reply(r, true)));
            var q := w.reqs[r];
            && OnlyRequest(w, v, r) && v.reqs[r] == q.(sends := q.sends + 1, clears := q.clears + 1)
            && SamePosts(w.tab, v.tab) && !v.tab.imp && v.tab.access == w.tab.access
            && (if w.tab.keepAlive.Some? then SameTimers(w.tab, v.tab) else Restarted(w.tab, v.tab))
  {
    hide OnUnauthorized, TimerInv, Restarted, SameTimers;
    ImpersonatedTab(w.tab);
  }

  lemma ImpersonatedTab(t: Tab)
    requires TimerInv(t) && t.imp
    ensures var (s, d) := OnUnauthorized(t, false);
            && d.Resend? && SamePosts(t, s) && !s.imp && s.access == t.access
            && (if t.keepAlive.Some? then SameTimers(t, s) else Restarted(t, s))
  {
    hide BeforeSend, Restarted;
    SendStarts(t.(imp := false));
    RestartedSame(t, BeforeSend(t.(imp := false)));
  }

  lemma RestartedSame(s: Tab, t: Tab)
    ensures Restarted(s.(imp := false), t) <==> Restarted(s, t)
  {
  }

  /** A first 401 otherwise waits for the one refresh in flight, sent now with the refresh cookie if there was
      none. */
  lemma RefreshingReply(w: World, r: nat)
    requires OneShared(w.tab) && AwaitsReply(w, r) && !w.reqs[r].retried && !w.tab.imp
    ensures var v := Step(w, Client(Reply(r, true)));
            && OnlyRequest(w, v, r) && SharesRefresh(w.tab, v.tab)
            && v.reqs[r] == w.reqs[r].(phase := Waiting(v.tab.inFlight.value), retried := true)
  {
    hide RunRefresh, SharesRefresh;
    RefreshShares(w.tab);
  }

  /** A second 401 ends the request and the session. */
  lemma RetriedReply(w: World, r: nat)
    requires TimerInv(w.tab) && AwaitsReply(w, r) && w.reqs[r].retried
    ensures var v := Step(w, Client(Reply(r, true)));
            && OnlyRequest(w, v, r) && v.reqs[r] == w.reqs[r].(phase := Done)
            && LoggedOut(v.tab) && SamePosts(w.tab, v.tab)
  {
    hide ForceLogout;
    LogoutEnds(w.tab);
  }

  /** Any other answer ends the request and changes nothing else; a new request is sent once. */
  lemma OtherReplyAndSend(w: World, r: nat)
    requires TimerInv(w.tab)
    ensures AwaitsReply(w, r) ==> Step(w, Client(Reply(r, false))) == w.(reqs := w.reqs[r := w.reqs[r].(phase := Done)])
    ensures r !in w.reqs ==>
              var v := Step(w, Client(Send(r)));
              && OnlyRequest(w, v, r) && v.reqs[r] == Req(Pending, false, 1, 0, 0, w.tab.imp)
              && SameCookies(w.tab, v.tab) && SamePosts(w.tab, v.tab)
              && (if w.tab.keepAlive.Some? then SameTimers(w.tab, v.tab) else Restarted(w.tab, v.tab))
  {
    SendStarts(w.tab);
  }

  /** A pending timer that fires asks for the shared refresh, once. */
  lemma TimerRefreshes(w: World, t: nat)
    requires OneShared(w.tab) && t in w.tab.timers
    ensures var v := Step(w, Client(TimerFires(t)));
            && SharesRefresh(w.tab, v.tab) && v.tab.timers == w.tab.timers - {t} && v.reqs == w.reqs
            && v.timerWaits == w.timerWaits + {v.tab.inFlight.value}
  {
    hide RunRefresh, SharesRefresh, OneShared;
    var timers := w.tab.timers - {t};
    SharesBesideTimers(w.tab, timers, w.tab);
    RefreshShares(w.tab.(timers := timers));
    SharesBesideTimers(w.tab, w.tab.timers - {t}, Step(w, Client(TimerFires(t))).tab);
  }

  lemma SharesBesideTimers(s: Tab, timers: set<nat>, t: Tab)
    ensures SharesRefresh(s.(timers := timers), t) <==> SharesRefresh(s, t)
    ensures OneShared(s.(timers := timers)) <==> OneShared(s)
  {
  }

  /** When that has brought a token the next timer is started; else nothing changes in the tab. */
  lemma TimerRestarts(w: World, x: nat)
    requires TimerInv(w.tab) && x in w.timerWaits && x in w.settled
    ensures var v := Step(w, Client(TimerResumes(x)));
            && v.timerWaits == w.timerWaits - {x} && v.reqs == w.reqs
            && (if w.settled[x].Got? then Restarted(w.tab, v.tab) && SameCookies(w.tab, v.tab) else v.tab == w.tab)
  {
    hide StartKeepAlive, Restarted, TimerInv;
    StartRestarts(w.tab);
  }

  /** The exact condition: of all events only a second 401 to a pending request, or a refresh that settled without
      a token or with a 401, takes the access token away. */
  lemma LogoutIff(w: World, e: Event)
    requires w.tab.access.Some?
    ensures Step(w, e).tab.access.None? <==> e.Client? && LogsOut(w, e.c)
  {
    if e.Client? && Step(w, e).tab.access.None? { ClientLogout(w, e.c); }
  }

  // ---------------------------------------------------------------- a refresh from post to promise

  /** The answer reaches the browser, and the promise settles. */
  function Arrives(x: nat): seq<Event> {
    [Network(Stores(x))] + ([Network(Settles(x))] + [])
  }

  lemma RunOne(w: World, e: Event, es: seq<Event>)
    ensures Run(w, [e] + es) == Run(Step(w, e), es)
  {
    assert ([e] + es)[1..] == es;
  }

  /** What the promise settles with for an answer of the server or the network. */
  predicate Tells(p: Phase, cookie: Token, o: Outcome, next: Token) {
    match p
    case Answered(token, body) => next == token && o == (if body.Some? then Got(body.value) else Empty)
    case Refused => next == cookie && o == Rejected(true)
    case Lost => next == cookie && o == Rejected(false)
    case _ => false
  }

  lemma Stored(w: World, x: nat, o: Outcome, next: Token)
    requires x in w.tab.posts && Tells(w.tab.posts[x].phase, w.tab.cookie, o, next)
    ensures var post := Post(w.tab.posts[x].presented, Delivered(o));
            Step(w, Network(Stores(x))) == w.(tab := w.tab.(posts := w.tab.posts[x := post], cookie := next))
  {
  }

  lemma Settled(w: World, x: nat, o: Outcome)
    requires OneShared(w.tab) && At(w, x, Delivered(o))
    ensures Step(w, Network(Settles(x)))
         == w.(tab := w.tab.(posts := map[], inFlight := None,
                             access := if o.Got? then Some(o.access) else w.tab.access),
               settled := w.settled[x := o])
  {
    assert w.tab.posts - {x} == map[];
  }

  /** Then the tab has the new cookies of a good answer, and the next refresh will be a new one. */
  lemma ArrivalSettles(w: World, x: nat, o: Outcome, next: Token)
    requires OneShared(w.tab) && x in w.tab.posts && Tells(w.tab.posts[x].phase, w.tab.cookie, o, next)
    ensures Run(w, Arrives(x))
         == w.(tab := w.tab.(posts := map[], inFlight := None, cookie := next,
                             access := if o.Got? then Some(o.access) else w.tab.access),
               settled := w.settled[x := o])
  {
    hide Step, Tells;
    var stored := Step(w, Network(Stores(x)));
    Stored(w, x, o, next);
    Settled(stored, x, o);
    RunOne(w, Network(Stores(x)), [Network(Settles(x))] + []);
    RunOne(stored, Network(Settles(x)), []);
  }

  /** The refresh handler, undisturbed, to the end of its answer. */
  function Handled(x: nat, next: Token, body: Option<Access>): seq<Event> {
    [Server(Finds(x))] + ([Server(Checks(x))] + ([Server(Deletes(x))] + ([Server(Creates(x, next, body))] + [])))
  }

  /** The world once the handler has replaced the token that post `x` presented. */
  function Rotated(w: World, x: nat, next: Token, body: Option<Access>): World
    requires x in w.tab.posts
  {
    Move(w, x, Answered(next, body)).(
       rows := (w.rows - {w.tab.posts[x].presented})[next := Row(false, w.now + REFRESH_TTL)],
       mine := w.mine + {next})
  }

  lemma FindsAndChecks(w: World, x: nat)
    requires At(w, x, Posted) && !w.disabled && Usable(w.rows, w.tab.posts[x].presented, w.now)
    ensures Step(Step(w, Server(Finds(x))), Server(Checks(x))) == Move(w, x, Cleared)
  {
    assert Step(w, Server(Finds(x))) == Move(w, x, Found);
    assert Move(Move(w, x, Found), x, Cleared).tab.posts == Move(w, x, Cleared).tab.posts;
  }

  lemma DeletesAndCreates(w: World, x: nat, next: Token, body: Option<Access>)
    requires At(w, x, Cleared) && next !in w.rows && next !in w.mine
    ensures Step(Step(w, Server(Deletes(x))), Server(Creates(x, next, body))) == Rotated(w, x, next, body)
  {
    hide Move;
    var mid := Move(w, x, Rotating).(rows := w.rows - {w.tab.posts[x].presented});
    assert Step(w, Server(Deletes(x))) == mid;
    MovesTwice(w, x, body, next);
  }

  lemma MovesTwice(w: World, x: nat, body: Option<Access>, next: Token)
    requires x in w.tab.posts
    ensures var mid := Move(w, x, Rotating);
            At(mid, x, Rotating) && mid.mine == w.mine && mid.now == w.now && mid.rows == w.rows
    ensures forall rows ::
              Move(Move(w, x, Rotating).(rows := rows), x, Answered(next, body))
              == Move(w, x, Answered(next, body)).(rows := rows)
  {
    assert Move(w, x, Rotating).tab.posts[x := Post(w.tab.posts[x].presented, Answered(next, body))]
        == w.tab.posts[x := Post(w.tab.posts[x].presented, Answered(next, body))];
  }

  lemma HandlerRotates(w: World, x: nat, next: Token, body: Option<Access>)
    requires At(w, x, Posted) && !w.disabled && Usable(w.rows, w.tab.posts[x].presented, w.now)
    requires next !in w.rows && next !in w.mine
    ensures Run(w, Handled(x, next, body)) == Rotated(w, x, next, body)
  {
    hide Step, Usable;
    var cleared := Move(w, x, Cleared);
    FindsAndChecks(w, x);
    DeletesAndCreates(cleared, x, next, body);
    RunOne(w, Server(Finds(x)), Handled(x, next, body)[1..]);
    RunOne(Step(w, Server(Finds(x))), Server(Checks(x)), Handled(x, next, body)[2..]);
    RunOne(cleared, Server(Deletes(x)), Handled(x, next, body)[3..]);
    RunOne(Step(cleared, Server(Deletes(x))), Server(Creates(x, next, body)), []);
    assert Rotated(cleared, x, next, body).tab.posts == Rotated(w, x, next, body).tab.posts;
  }

  /** A refresh of an enabled account whose token the server accepts: when nothing disturbs it, the new token is
      in the cookie and in the table, the old one is gone, the access token is the one in the answer, and the
      promise has settled with it. */
  lemma RefreshRenews(w: World, x: nat, next: Token, access: Access)
    requires OneShared(w.tab) && At(w, x, Posted) && !w.disabled && Usable(w.rows, w.tab.posts[x].presented, w.now)
    requires next !in w.rows && next !in w.mine
    ensures Run(w, Handled(x, next, Some(access)) + Arrives(x))
         == w.(tab := w.tab.(posts := map[], inFlight := None, cookie := next, access := Some(access)),
               rows := (w.rows - {w.tab.posts[x].presented})[next := Row(false, w.now + REFRESH_TTL)],
               mine := w.mine + {next}, settled := w.settled[x := Got(access)])
  {
    hide Run, Usable;
    HandlerRotates(w, x, next, Some(access));
    RunSplit(w, Handled(x, next, Some(access)), Arrives(x));
    ArrivalSettles(Rotated(w, x, next, Some(access)), x, Got(access), next);
  }

  /** Everything between the post and the promise, when it does not come through. */
  predicate Unrenewed(w: World, v: World, x: nat, o: Outcome) {
    && v.tab == w.tab.(posts := map[], inFlight := None) && v.settled == w.settled[x := o]
    && v.reqs == w.reqs && v.mine == w.mine
  }

  lemma AnsweredSo(w: World, v: World, x: nat, p: Phase, o: Outcome)
    requires OneShared(w.tab) && x in w.tab.posts && Tells(p, w.tab.cookie, o, w.tab.cookie) && o.Rejected?
    requires v.tab == Move(w, x, p).tab && v.settled == w.settled && v.reqs == w.reqs && v.mine == w.mine
    ensures Unrenewed(w, Run(v, Arrives(x)), x, o) && Run(v, Arrives(x)).rows == v.rows
  {
    hide Run, Step;
    ArrivalSettles(v, x, o, w.tab.cookie);
  }

  /** The server accepts exactly a token with a row that is not revoked and not past its expiry. */
  lemma FindsExactly(w: World, x: nat)
    requires At(w, x, Posted)
    ensures var v, raw := Step(w, Server(Finds(x))), w.tab.posts[x].presented;
            && x in v.tab.posts && v.rows == w.rows
            && v.tab.posts[x].phase
               == (if raw in w.rows && !w.rows[raw].revoked && w.now < w.rows[raw].expiresAt then Found else Refused)
  {
    hide Move;
    AfterMove(w, x, Found);
    AfterMove(w, x, Refused);
  }

  lemma AfterMove(w: World, x: nat, p: Phase)
    requires x in w.tab.posts
    ensures At(Move(w, x, p), x, p) && Move(w, x, p).rows == w.rows
  {
  }

  /** A token that the server does not accept is answered by a 401, which leaves cookies and table alone. */
  lemma RefreshRefused(w: World, x: nat)
    requires OneShared(w.tab) && At(w, x, Posted) && !Usable(w.rows, w.tab.posts[x].presented, w.now)
    ensures var v := Run(Step(w, Server(Finds(x))), Arrives(x));
            Unrenewed(w, v, x, Rejected(true)) && v.rows == w.rows
  {
    hide Run, Unrenewed;
    AnsweredSo(w, Step(w, Server(Finds(x))), x, Refused, Rejected(true));
  }

  /** So is one of a disabled account, and its row is gone. */
  lemma RefreshStrikes(w: World, x: nat)
    requires OneShared(w.tab) && At(w, x, Posted) && Usable(w.rows, w.tab.posts[x].presented, w.now) && w.disabled
    ensures var v := Run(Step(Step(w, Server(Finds(x))), Server(Checks(x))), Arrives(x));
            Unrenewed(w, v, x, Rejected(true)) && v.rows == w.rows - {w.tab.posts[x].presented}
  {
    hide Run, Unrenewed, Usable;
    var found := Move(w, x, Found);
    assert Step(w, Server(Finds(x))) == found;
    var struck := Step(found, Server(Checks(x)));
    assert struck.tab.posts == Move(w, x, Refused).tab.posts;
    AnsweredSo(w, struck, x, Refused, Rejected(true));
  }

  /** A lost request settles as a network error and changes neither cookies nor table. */
  lemma RefreshLost(w: World, x: nat)
    requires OneShared(w.tab) && At(w, x, Posted)
    ensures var v := Run(Step(w, Network(Loses(x))), Arrives(x));
            Unrenewed(w, v, x, Rejected(false)) && v.rows == w.rows
  {
    hide Run, Unrenewed;
    AnsweredSo(w, Step(w, Network(Loses(x))), x, Lost, Rejected(false));
  }

  /** And the whole story of an access token that has expired: the 401, the refresh, the resend. */
  function Renewal(r: nat, x: nat, next: Token, access: Access): seq<Event> {
    [Client(Reply(r, true))] + ((Handled(x, next, Some(access)) + Arrives(x)) + ([Client(RequestResumes(r))] + []))
  }

  /** The world after the 401. */
  function Asked(w: World, r: nat): World
    requires r in w.reqs
  {
    var x := w.tab.nextId;
    w.(tab := w.tab.(posts := w.tab.posts[x := Post(w.tab.cookie, Posted)], inFlight := Some(x), nextId := x + 1),
       reqs := w.reqs[r := w.reqs[r].(phase := Waiting(x), retried := true)])
  }

  lemma FirstAsks(w: World, r: nat)
    requires AwaitsReply(w, r) && !w.reqs[r].retried && !w.tab.imp && w.tab.inFlight.None?
    ensures Step(w, Client(Reply(r, true))) == Asked(w, r)
  {
  }

  lemma RenewalFrom(w: World, r: nat, next: Token, access: Access)
    requires AwaitsReply(w, r) && !w.reqs[r].retried && !w.tab.imp && w.tab.inFlight.None?
    requires TimerInv(w.tab) && OneShared(w.tab) && !w.disabled && Usable(w.rows, w.tab.cookie, w.now)
    requires next !in w.rows && next !in w.mine
    ensures var u := Run(w, Renewal(r, w.tab.nextId, next, access));
            && u.reqs == w.reqs[r := w.reqs[r].(phase := Pending, retried := true, sends := w.reqs[r].sends + 1)]
            && u.tab.access == Some(access) && u.tab.cookie == next && Usable(u.rows, next, u.now)
            && w.tab.cookie !in u.rows && Restarted(w.tab, u.tab)
  {
    hide Run, Step, Handled, Arrives, StartKeepAlive, BeforeSend;
    var x := w.tab.nextId;
    var asked := Asked(w, r);
    FirstAsks(w, r);
    var refresh := Handled(x, next, Some(access)) + Arrives(x);
    RunOne(w, Client(Reply(r, true)), refresh + ([Client(RequestResumes(r))] + []));
    RefreshRenews(asked, x, next, access);
    var renewed := Run(asked, refresh);
    RunSplit(asked, refresh, [Client(RequestResumes(r))] + []);
    RunOne(renewed, Client(RequestResumes(r)), []);
    ResumeResends(renewed, r);
    var u := Step(renewed, Client(RequestResumes(r)));
    assert Run(u, []) == u by { RunNone(u); }
    assert u.reqs == w.reqs[r := w.reqs[r].(phase := Pending, retried := true, sends := w.reqs[r].sends + 1)];
    ClientSameServer(renewed, RequestResumes(r));
  }

  lemma RunNone(w: World)
    ensures Run(w, []) == w
  {
  }

  lemma ClientSameServer(w: World, e: ClientEvent)
    ensures SameServer(w, Step(w, Client(e))) && Step(w, Client(e)).now == w.now
  {
  }

  /** In every reachable state of an enabled account whose token has not expired, with no refresh in flight: a
      request's first 401, undisturbed, ends in the request being sent again with a new access token, a
      new refresh token and, when its expiry can be read, a new timer. */
  lemma ExpiredAccessIsRenewed(w: World, es: seq<Event>, r: nat, next: Token, access: Access)
    requires LoggedIn(w)
    requires var v := Run(w, es);
             && AwaitsReply(v, r) && !v.reqs[r].retried && !v.tab.imp && v.tab.inFlight.None?
             && !v.disabled && !v.struck && v.tab.cookie in v.rows && v.now < v.rows[v.tab.cookie].expiresAt
             && next !in v.rows && next !in v.mine
    ensures var v := Run(w, es);
            var u := Run(v, Renewal(r, v.tab.nextId, next, access));
            && u.reqs == v.reqs[r := v.reqs[r].(phase := Pending, retried := true, sends := v.reqs[r].sends + 1)]
            && u.tab.access == Some(access) && u.tab.cookie == next && Usable(u.rows, next, u.now)
            && v.tab.cookie !in u.rows && Restarted(v.tab, u.tab)
  {
    hide Run, Restarted, Renewal;
    TabFacts(w, es);
    RenewalFrom(Run(w, es), r, next, access);
  }

  lemma TabFacts(w: World, es: seq<Event>)
    requires LoggedIn(w)
    ensures var v := Run(w, es);
            && TimerInv(v.tab) && OneShared(v.tab)
            && (v.tab.cookie in v.rows && v.now < v.rows[v.tab.cookie].expiresAt ==>
                  Usable(v.rows, v.tab.cookie, v.now))
  {
    hide Run;
    LoginStartsTokens(w);
    RunKeepsTokens(w, es);
    RunKeepsRows(w, es);
    OneTimerPending(w, es);
  }
}
