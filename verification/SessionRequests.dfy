/** What every run of the session protocol keeps about requests, timers and forced logouts. */
module SessionRequests {
  import opened Common
  import opened Session
  import opened SessionTokens

  // ---------------------------------------------------------------- timers

  /** Only the timer that `keepAliveTimer` names can still be pending. */
  predicate TimerInv(t: Tab) {
    && t.timers <= (if t.keepAlive.Some? then {t.keepAlive.value} else {})
    && (t.keepAlive.Some? ==> t.keepAlive.value < t.nextId)
  }

  lemma KeepAliveKeepsTimer(t: Tab)
    requires TimerInv(t)
    ensures TimerInv(StopKeepAlive(t)) && TimerInv(StartKeepAlive(t)) && TimerInv(BeforeSend(t))
    ensures TimerInv(ForceLogout(t)) && StopKeepAlive(t).timers == {}
  {
    assert StopKeepAlive(t).timers == {};
  }

  lemma UnauthorizedKeepsTimer(t: Tab, retried: bool)
    requires TimerInv(t)
    ensures TimerInv(OnUnauthorized(t, retried).0)
  {
    KeepAliveKeepsTimer(t);
    KeepAliveKeepsTimer(t.(imp := false));
  }

  lemma RefreshedKeepsTimer(t: Tab, o: Outcome)
    requires TimerInv(t)
    ensures TimerInv(AfterRefresh(t, o).0)
  {
    KeepAliveKeepsTimer(t);
    KeepAliveKeepsTimer(StartKeepAlive(t));
  }

  lemma ClientKeepsTimer(w: World, e: ClientEvent)
    requires TimerInv(w.tab)
    ensures TimerInv(ClientStep(w, e).tab)
  {
    match e
    case Send(_) => KeepAliveKeepsTimer(w.tab);
    case Reply(r, _) => if r in w.reqs { UnauthorizedKeepsTimer(w.tab, w.reqs[r].retried); }
    case RequestResumes(r) =>
      if ResumeStep(w, r) != w { RefreshedKeepsTimer(w.tab, w.settled[w.reqs[r].phase.promise]); }
    case TimerFires(t) =>
    case TimerResumes(_) => KeepAliveKeepsTimer(w.tab);
  }

  lemma {:induction false} OneTimerPending(w: World, es: seq<Event>)
    requires TimerInv(w.tab)
    ensures TimerInv(Run(w, es).tab) && |Run(w, es).tab.timers| <= 1
    decreases |es|
  {
    if es == [] {
      if w.tab.keepAlive.Some? {
        assert w.tab.timers == {} || w.tab.timers == {w.tab.keepAlive.value};
      }
    } else {
      var v := Step(w, es[0]);
      if es[0].Client? { ClientKeepsTimer(w, es[0].c); }
      OneTimerPending(v, es[1..]);
    }
  }

  // ---------------------------------------------------------------- requests

  /** The measure: every resend either dropped an impersonation cookie or used up the one retry. */
  predicate Fits(imp: bool, promises: set<nat>, q: Req) {
    && q.sends <= 1 + q.clears + One(q.retried)
    && (q.phase.Waiting? ==> q.retried && q.sends <= 1 + q.clears && q.phase.promise in promises)
    && q.clears + (if q.phase.Done? then 0 else One(imp)) <= One(q.impAtStart) + q.sets
  }

  predicate ReqInv(w: World) {
    forall r <- w.reqs :: Fits(w.tab.imp, Promises(w), w.reqs[r])
  }

  lemma SameReqs(w: World, v: World)
    requires ReqInv(w) && v.reqs == w.reqs && (v.tab.imp ==> w.tab.imp) && Promises(w) <= Promises(v)
    ensures ReqInv(v)
  {
    forall r <- v.reqs ensures Fits(v.tab.imp, Promises(v), v.reqs[r]) {
      assert Fits(w.tab.imp, Promises(w), w.reqs[r]);
    }
  }

  /** Request `r` alone changed. */
  lemma OneReq(w: World, v: World, r: nat, q: Req)
    requires ReqInv(w) && v.reqs == w.reqs[r := q]
    requires (v.tab.imp ==> w.tab.imp) && Promises(w) <= Promises(v)
    requires Fits(v.tab.imp, Promises(v), q)
    ensures ReqInv(v)
  {
    forall s <- v.reqs ensures Fits(v.tab.imp, Promises(v), v.reqs[s]) {
      if s != r { assert Fits(w.tab.imp, Promises(w), w.reqs[s]); }
    }
  }

  /** Timers never touch the impersonation cookie, a logout drops it. */
  lemma KeepAliveSameImp(t: Tab)
    ensures StartKeepAlive(t).imp == t.imp && BeforeSend(t).imp == t.imp && !ForceLogout(t).imp
  {
  }

  lemma UnauthorizedImp(t: Tab, retried: bool)
    ensures var (s, d) := OnUnauthorized(t, retried);
            && (s.imp ==> t.imp) && (d.Resend? <==> t.imp && !retried) && (d.Resend? ==> !s.imp)
            && (d.Await? ==> !retried && (OneShared(t) ==> d.promise in s.posts))
            && t.posts.Keys <= s.posts.Keys
  {
    KeepAliveSameImp(t.(imp := false));
    UnauthorizedPosts(t, retried);
  }

  lemma ReplyKeepsReqs(w: World, r: nat, unauthorized: bool)
    requires ReqInv(w) && OneShared(w.tab) && r in w.reqs && w.reqs[r].phase.Pending?
    ensures ReqInv(ReplyStep(w, r, unauthorized))
  {
    var v := ReplyStep(w, r, unauthorized);
    assert Fits(w.tab.imp, Promises(w), w.reqs[r]);
    UnauthorizedImp(w.tab, w.reqs[r].retried);
    OneReq(w, v, r, v.reqs[r]);
  }

  lemma AfterRefreshImp(t: Tab, o: Outcome)
    ensures AfterRefresh(t, o).0.imp ==> t.imp
  {
    KeepAliveSameImp(t);
    KeepAliveSameImp(StartKeepAlive(t));
  }

  lemma ResumeKeepsReqs(w: World, r: nat)
    requires ReqInv(w)
    ensures ReqInv(ResumeStep(w, r))
  {
    var v := ResumeStep(w, r);
    if v != w {
      assert Fits(w.tab.imp, Promises(w), w.reqs[r]);
      AfterRefreshImp(w.tab, w.settled[w.reqs[r].phase.promise]);
      AfterRefreshSamePosts(w.tab, w.settled[w.reqs[r].phase.promise]);
      OneReq(w, v, r, v.reqs[r]);
    }
  }

  lemma SendKeepsReqs(w: World, r: nat)
    requires ReqInv(w)
    ensures ReqInv(SendStep(w, r))
  {
    if r !in w.reqs {
      KeepAliveSameImp(w.tab);
      KeepAliveSamePosts(w.tab);
      OneReq(w, SendStep(w, r), r, Req(Pending, false, 1, 0, 0, w.tab.imp));
    }
  }

  lemma FireKeepsReqs(w: World, t: nat)
    requires ReqInv(w)
    ensures ReqInv(FireStep(w, t))
  {
    hide ReqInv;
    SameReqs(w, FireStep(w, t));
  }

  lemma TimerResumeKeepsReqs(w: World, x: nat)
    requires ReqInv(w)
    ensures ReqInv(TimerResumeStep(w, x))
  {
    KeepAliveSameImp(w.tab);
    KeepAliveSamePosts(w.tab);
    SameReqs(w, TimerResumeStep(w, x));
  }

  lemma ClientKeepsReqs(w: World, e: ClientEvent)
    requires ReqInv(w) && OneShared(w.tab)
    ensures ReqInv(ClientStep(w, e))
  {
    match e
    case Send(r) => SendKeepsReqs(w, r);
    case Reply(r, u) => if r in w.reqs && w.reqs[r].phase.Pending? { ReplyKeepsReqs(w, r, u); }
    case RequestResumes(r) => ResumeKeepsReqs(w, r);
    case TimerFires(t) => FireKeepsReqs(w, t);
    case TimerResumes(x) => TimerResumeKeepsReqs(w, x);
  }

  lemma OutsideKeepsReqs(w: World, e: OutsideEvent)
    requires ReqInv(w)
    ensures ReqInv(OutsideStep(w, e))
  {
    var v := OutsideStep(w, e);
    if e.Impersonate? {
      forall r <- v.reqs ensures Fits(v.tab.imp, Promises(v), v.reqs[r]) {
        assert Fits(w.tab.imp, Promises(w), w.reqs[r]);
      }
    } else {
      SameReqs(w, v);
    }
  }

  lemma StepKeepsReqs(w: World, e: Event)
    requires ReqInv(w) && OneShared(w.tab)
    ensures ReqInv(Step(w, e))
  {
    match e
    case Client(c) => ClientKeepsReqs(w, c);
    case Server(s) => SameReqs(w, ServerStep(w, s));
    case Network(n) => SameReqs(w, NetworkStep(w, n));
    case Outside(o) => OutsideKeepsReqs(w, o);
  }

  lemma {:induction false} RunKeepsReqs(w: World, es: seq<Event>)
    requires ReqInv(w) && TokenInv(w)
    ensures ReqInv(Run(w, es))
    decreases |es|
  {
    if es != [] {
      StepKeepsReqs(w, es[0]);
      StepKeepsTokens(w, es[0]);
      RunKeepsReqs(Step(w, es[0]), es[1..]);
    }
  }

  /** A logical request is sent at most 3 + k times, k counting the impersonation cookies set while
      it lived, and a request that waits does so on a promise that is pending or has settled. */
  lemma SendBound(w: World, es: seq<Event>, r: nat)
    requires LoggedIn(w) && r in Run(w, es).reqs
    ensures var v := Run(w, es);
            var q := v.reqs[r];
            && q.sends <= 3 + q.sets
            && (q.phase.Waiting? ==> q.phase.promise in v.tab.posts || q.phase.promise in v.settled)
  {
    LoginStartsTokens(w);
    RunKeepsReqs(w, es);
    assert Fits(Run(w, es).tab.imp, Promises(Run(w, es)), Run(w, es).reqs[r]);
  }

  /** A 401 under impersonation, on an unretried request, costs the impersonation cookie and one
      resend: the admin's own token, the retry and the refresh token are all left alone. */
  lemma ImpersonationReplyKeepsAdmin(w: World, r: nat)
    requires r in w.reqs && w.reqs[r].phase.Pending? && w.tab.imp && !w.reqs[r].retried
    ensures var v := Step(w, Client(Reply(r, true)));
            && v.tab.access == w.tab.access && !v.tab.imp && SamePosts(w.tab, v.tab)
            && v.reqs[r].phase.Pending? && !v.reqs[r].retried && v.reqs[r].sends == w.reqs[r].sends + 1
  {
    KeepAliveSamePosts(w.tab.(imp := false));
  }

  // ---------------------------------------------------------------- forced logouts

  predicate Excused(w: World) {
    w.struck || w.lapsed || w.missed
  }

  predicate IsRefusal(p: Post) {
    p.phase == Refused || p.phase == Delivered(Rejected(true))
  }

  /** Every refusal on its way to the tab, or kept by a settled promise, had a cause. */
  predicate CauseInv(w: World) {
    && (forall x <- w.tab.posts :: IsRefusal(w.tab.posts[x]) ==> Excused(w))
    && (forall x <- w.settled :: w.settled[x] == Rejected(true) ==> Excused(w))
  }

  /** One post moved: fine if it is no refusal, or if there is a cause now. */
  lemma MoveKeepsCause(w: World, v: World, x: nat, p: Post)
    requires CauseInv(w) && v.settled == w.settled && (Excused(w) ==> Excused(v))
    requires v.tab.posts == w.tab.posts[x := p] && (IsRefusal(p) ==> Excused(v))
    ensures CauseInv(v)
  {
    forall y <- v.tab.posts ensures IsRefusal(v.tab.posts[y]) ==> Excused(v) {
      if y != x { assert IsRefusal(w.tab.posts[y]) ==> Excused(w); }
    }
  }

  lemma FindKeepsCause(w: World, x: nat)
    requires CauseInv(w) && At(w, x, Posted) && TokenInv(w) && Unrevoked(w)
    ensures CauseInv(FindStep(w, x))
  {
    assert PostFits(w, w.tab.posts[x]);
    var v := FindStep(w, x);
    MoveKeepsCause(w, v, x, v.tab.posts[x]);
  }

  lemma CheckKeepsCause(w: World, x: nat)
    requires CauseInv(w) && x in w.tab.posts
    ensures CauseInv(CheckStep(w, x))
  {
    var v := CheckStep(w, x);
    MoveKeepsCause(w, v, x, v.tab.posts[x]);
  }

  lemma RotateKeepsCause(w: World, e: ServerEvent)
    requires CauseInv(w) && (e.Deletes? || e.Creates?)
    ensures CauseInv(ServerStep(w, e))
  {
    var v := ServerStep(w, e);
    if v != w { MoveKeepsCause(w, v, e.x, v.tab.posts[e.x]); }
  }

  lemma ServerKeepsCause(w: World, e: ServerEvent)
    requires CauseInv(w) && TokenInv(w) && Unrevoked(w)
    ensures CauseInv(ServerStep(w, e))
  {
    match e
    case Finds(x) => if At(w, x, Posted) { FindKeepsCause(w, x); }
    case Checks(x) => if At(w, x, Found) { CheckKeepsCause(w, x); }
    case Deletes(_) => RotateKeepsCause(w, e);
    case Creates(_, _, _) => RotateKeepsCause(w, e);
  }

  lemma DeliverKeepsCause(w: World, x: nat, o: Outcome, next: nat)
    requires CauseInv(w) && x in w.tab.posts && (o == Rejected(true) ==> IsRefusal(w.tab.posts[x]))
    ensures CauseInv(Deliver(w, x, o, next))
  {
    var v := Deliver(w, x, o, next);
    MoveKeepsCause(w, v, x, v.tab.posts[x]);
  }

  lemma StoreKeepsCause(w: World, x: nat)
    requires CauseInv(w) && x in w.tab.posts
    ensures CauseInv(StoreStep(w, x))
  {
    hide Deliver, CauseInv;
    match w.tab.posts[x].phase
    case Answered(next, body) => DeliverKeepsCause(w, x, if body.Some? then Got(body.value) else Empty, next);
    case Refused => DeliverKeepsCause(w, x, Rejected(true), w.tab.cookie);
    case Lost => DeliverKeepsCause(w, x, Rejected(false), w.tab.cookie);
    case _ =>
  }

  lemma SettleKeepsCause(w: World, x: nat)
    requires CauseInv(w) && x in w.tab.posts && w.tab.posts[x].phase.Delivered?
    ensures CauseInv(SettleStep(w, x))
  {
    var v := SettleStep(w, x);
    var o := w.tab.posts[x].phase.outcome;
    assert o == Rejected(true) ==> IsRefusal(w.tab.posts[x]);
    assert v.tab.posts == w.tab.posts - {x} && v.settled == w.settled[x := o];
  }

  lemma LoseKeepsCause(w: World, x: nat)
    requires CauseInv(w) && x in w.tab.posts
    ensures CauseInv(Move(w, x, Lost))
  {
    MoveKeepsCause(w, Move(w, x, Lost), x, w.tab.posts[x].(phase := Lost));
  }

  lemma NetworkKeepsCause(w: World, e: NetworkEvent)
    requires CauseInv(w)
    ensures CauseInv(NetworkStep(w, e))
  {
    match e
    case Loses(x) => if At(w, x, Posted) { LoseKeepsCause(w, x); }
    case Stores(x) => if x in w.tab.posts { StoreKeepsCause(w, x); }
    case Settles(x) =>
      if x in w.tab.posts && w.tab.posts[x].phase.Delivered? { SettleKeepsCause(w, x); }
  }

  lemma ClientKeepsCause(w: World, e: ClientEvent)
    requires CauseInv(w)
    ensures CauseInv(ClientStep(w, e))
  {
    var v := ClientStep(w, e);
    ClientPosts(w, e);
    if SamePosts(w.tab, v.tab) {
    } else {
      assert w.tab.inFlight.None?;
      MoveKeepsCause(w, v, w.tab.nextId, Post(w.tab.cookie, Posted));
    }
  }

  lemma OutsideKeepsCause(w: World, e: OutsideEvent)
    requires CauseInv(w)
    ensures CauseInv(OutsideStep(w, e))
  {
    var v := OutsideStep(w, e);
    assert v.settled == w.settled && v.tab.posts == w.tab.posts && Excused(v) == Excused(w);
  }

  lemma {:induction false} RunKeepsCause(w: World, es: seq<Event>)
    requires CauseInv(w) && TokenInv(w) && Unrevoked(w)
    ensures CauseInv(Run(w, es))
    decreases |es|
  {
    if es != [] {
      match es[0] {
        case Client(c) => ClientKeepsCause(w, c);
        case Server(s) => ServerKeepsCause(w, s);
        case Network(n) => NetworkKeepsCause(w, n);
        case Outside(o) => OutsideKeepsCause(w, o);
      }
      StepKeepsTokens(w, es[0]);
      StepKeepsRows(w, es[0]);
      RunKeepsCause(Step(w, es[0]), es[1..]);
    }
  }

  lemma KeepAliveSameAccess(t: Tab)
    ensures StartKeepAlive(t).access == t.access && BeforeSend(t).access == t.access
  {
  }

  /** A second 401 on a retried request, or the end of a refresh that brought no token. */
  predicate LogsOut(v: World, e: ClientEvent) {
    || (e.Reply? && e.unauthorized && e.r in v.reqs && v.reqs[e.r].phase.Pending? && v.reqs[e.r].retried)
    || (&& e.RequestResumes? && e.r in v.reqs && v.reqs[e.r].phase.Waiting?
        && v.reqs[e.r].phase.promise in v.settled
        && (var o := v.settled[v.reqs[e.r].phase.promise]; o == Empty || o == Rejected(true)))
  }

  lemma OnUnauthorizedAccess(t: Tab, retried: bool)
    requires t.access.Some? && OnUnauthorized(t, retried).0.access.None?
    ensures retried
  {
    KeepAliveSameAccess(t.(imp := false));
  }

  lemma AfterRefreshAccess(t: Tab, o: Outcome)
    requires t.access.Some? && AfterRefresh(t, o).0.access.None?
    ensures o == Empty || o == Rejected(true)
  {
    KeepAliveSameAccess(t);
    KeepAliveSameAccess(StartKeepAlive(t));
  }

  lemma ClientLogout(v: World, e: ClientEvent)
    requires v.tab.access.Some? && ClientStep(v, e).tab.access.None?
    ensures LogsOut(v, e)
  {
    match e
    case Send(_) => KeepAliveSameAccess(v.tab);
    case Reply(r, u) => OnUnauthorizedAccess(v.tab, v.reqs[r].retried);
    case RequestResumes(r) => AfterRefreshAccess(v.tab, v.settled[v.reqs[r].phase.promise]);
    case TimerFires(_) =>
    case TimerResumes(_) => KeepAliveSameAccess(v.tab);
  }

  /** The access-token cookie is cleared by nothing but those two, and the server refuses a refresh
      only because the account was disabled or the row had expired. */
  lemma LogoutHasCause(w: World, es: seq<Event>, e: Event)
    requires LoggedIn(w)
    requires Run(w, es).tab.access.Some? && Step(Run(w, es), e).tab.access.None?
    ensures var v := Run(w, es);
            && e.Client? && LogsOut(v, e.c)
            && (forall x <- v.settled :: v.settled[x] == Rejected(true) ==> v.struck || v.lapsed)
  {
    var v := Run(w, es);
    SessionSafety(w, es);
    LoginStartsTokens(w);
    StartsWithoutCause(w);
    RunKeepsCause(w, es);
    if e.Client? { ClientLogout(v, e.c); }
  }

  lemma StartsWithoutCause(w: World)
    requires LoggedIn(w)
    ensures CauseInv(w)
  {
  }
}
