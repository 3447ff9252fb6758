/** What every run of the session protocol keeps about the refresh tokens. */
module SessionTokens {
  import opened Common
  import opened Session

  /** The session's rows in the token table. */
  function MyRows(w: World): set<Token> {
    set t | t in w.mine && t in w.rows
  }

  predicate InGap(w: World) {
    w.tab.inFlight.Some? && At(w, w.tab.inFlight.value, Rotating)
  }

  /** Who holds the session's live token: the undelivered response, or the browser's cookie. */
  function Holder(w: World): Token {
    if w.tab.inFlight.Some? && w.tab.inFlight.value in w.tab.posts
       && w.tab.posts[w.tab.inFlight.value].phase.Answered?
    then w.tab.posts[w.tab.inFlight.value].phase.next
    else w.tab.cookie
  }

  /** At most one refresh exists, and it is the one `refreshInFlight` names. */
  predicate OneShared(t: Tab) {
    && t.posts.Keys == (if t.inFlight.Some? then {t.inFlight.value} else {})
    && forall x <- t.posts :: x < t.nextId
  }

  predicate PostFits(w: World, p: Post) {
    && (p.phase.Posted? || p.phase.Found? || p.phase.Cleared? || p.phase.Rotating? ==> p.presented == w.tab.cookie)
    && (p.phase.Found? || p.phase.Cleared? || p.phase.Rotating? || p.phase.Answered? ==> !w.struck)
    && (p.phase.Answered? ==> p.phase.next in w.mine)
    && (p.phase.Delivered? && !p.phase.outcome.Rejected? ==> !w.struck)
  }

  predicate TokenInv(w: World) {
    && OneShared(w.tab)
    && (forall x <- w.tab.posts :: PostFits(w, w.tab.posts[x]))
    && w.tab.cookie in w.mine
    && MyRows(w) == (if w.struck || InGap(w) then {} else {Holder(w)})
    && (w.missed ==> w.struck)
  }

  lemma TabKeepsTokens(w: World, v: World)
    requires TokenInv(w) && SameServer(w, v) && SamePosts(w.tab, v.tab)
    ensures TokenInv(v)
  {
    assert MyRows(v) == MyRows(w);
    forall x <- v.tab.posts ensures PostFits(v, v.tab.posts[x]) {
      assert PostFits(w, w.tab.posts[x]);
    }
  }

  lemma RefreshKeepsTokens(w: World, v: World)
    requires TokenInv(w) && SameServer(w, v) && SamePosts(RunRefresh(w.tab).0, v.tab)
    ensures TokenInv(v)
  {
    assert MyRows(v) == MyRows(w);
    forall x <- v.tab.posts ensures PostFits(v, v.tab.posts[x]) {
      if x in w.tab.posts { assert PostFits(w, w.tab.posts[x]); }
    }
  }

  lemma KeepAliveSamePosts(t: Tab)
    ensures SamePosts(t, StartKeepAlive(t)) && SamePosts(t, BeforeSend(t)) && SamePosts(t, ForceLogout(t))
  {
  }

  lemma AfterRefreshSamePosts(t: Tab, o: Outcome)
    ensures SamePosts(t, AfterRefresh(t, o).0)
  {
    KeepAliveSamePosts(t);
    KeepAliveSamePosts(StartKeepAlive(t));
  }

  /** A 401 sends a refresh only when the interceptor decides to wait for one. */
  lemma UnauthorizedPosts(t: Tab, retried: bool)
    ensures var (s, d) := OnUnauthorized(t, retried);
            if d.Await? then s == RunRefresh(t).0 else SamePosts(t, s)
  {
    KeepAliveSamePosts(t);
    KeepAliveSamePosts(t.(imp := false));
  }

  lemma ReplyKeepsTokens(w: World, r: nat, unauthorized: bool)
    requires TokenInv(w) && r in w.reqs
    ensures TokenInv(ReplyStep(w, r, unauthorized))
  {
    var v := ReplyStep(w, r, unauthorized);
    UnauthorizedPosts(w.tab, w.reqs[r].retried);
    if unauthorized && OnUnauthorized(w.tab, w.reqs[r].retried).1.Await? {
      RefreshKeepsTokens(w, v);
    } else {
      TabKeepsTokens(w, v);
    }
  }

  lemma ResumeKeepsTokens(w: World, r: nat)
    requires TokenInv(w)
    ensures TokenInv(ResumeStep(w, r))
  {
    var v := ResumeStep(w, r);
    if v != w {
      AfterRefreshSamePosts(w.tab, w.settled[w.reqs[r].phase.promise]);
      TabKeepsTokens(w, v);
    }
  }

  lemma FireKeepsTokens(w: World, t: nat)
    requires TokenInv(w)
    ensures TokenInv(FireStep(w, t))
  {
    if t in w.tab.timers { RefreshKeepsTokens(w, FireStep(w, t)); }
  }

  lemma TimerResumeKeepsTokens(w: World, x: nat)
    requires TokenInv(w)
    ensures TokenInv(TimerResumeStep(w, x))
  {
    KeepAliveSamePosts(w.tab);
    TabKeepsTokens(w, TimerResumeStep(w, x));
  }

  lemma PhaseKeepsTokens(w: World, x: nat, p: Phase)
    requires TokenInv(w) && At(w, x, Posted) && (p.Refused? || (p.Found? && !w.struck))
    ensures TokenInv(Move(w, x, p))
  {
    assert PostFits(w, w.tab.posts[x]);
    assert MyRows(Move(w, x, p)) == MyRows(w);
  }

  lemma FindKeepsTokens(w: World, x: nat)
    requires TokenInv(w) && At(w, x, Posted)
    ensures TokenInv(FindStep(w, x))
  {
    hide Move;
    var raw := w.tab.posts[x].presented;
    assert PostFits(w, w.tab.posts[x]);
    assert raw in w.rows <==> raw in MyRows(w);
    if Usable(w.rows, raw, w.now) {
      PhaseKeepsTokens(w, x, Found);
    } else {
      PhaseKeepsTokens(w, x, Refused);
      FlagsKeepTokens(Move(w, x, Refused), w.missed || raw !in w.rows, FindStep(w, x).lapsed);
    }
  }

  lemma FlagsKeepTokens(w: World, missed: bool, lapsed: bool)
    requires TokenInv(w) && (missed ==> w.struck)
    ensures TokenInv(w.(missed := missed, lapsed := lapsed))
  {
    var v := w.(missed := missed, lapsed := lapsed);
    assert MyRows(v) == MyRows(w);
    forall x <- v.tab.posts ensures PostFits(v, v.tab.posts[x]) {
      assert PostFits(w, w.tab.posts[x]);
    }
  }

  lemma CheckKeepsTokens(w: World, x: nat)
    requires TokenInv(w) && At(w, x, Found)
    ensures TokenInv(CheckStep(w, x))
  {
    var v := CheckStep(w, x);
    assert PostFits(w, w.tab.posts[x]);
    assert MyRows(v) == MyRows(w) - (if w.disabled then {w.tab.cookie} else {});
  }

  lemma DeleteKeepsTokens(w: World, x: nat)
    requires TokenInv(w)
    ensures TokenInv(DeleteStep(w, x))
  {
    if At(w, x, Cleared) {
      assert PostFits(w, w.tab.posts[x]);
      assert MyRows(DeleteStep(w, x)) == MyRows(w) - {w.tab.cookie};
    }
  }

  lemma CreateKeepsTokens(w: World, x: nat, next: Token, body: Option<Access>)
    requires TokenInv(w)
    ensures TokenInv(CreateStep(w, x, next, body))
  {
    var v := CreateStep(w, x, next, body);
    if v != w {
      assert PostFits(w, w.tab.posts[x]);
      assert MyRows(v) == MyRows(w) + {next};
    }
  }

  lemma DeliverKeepsTokens(w: World, x: nat, o: Outcome)
    requires TokenInv(w) && x in w.tab.posts && !InGap(w)
    requires !o.Rejected? ==> !w.struck
    ensures TokenInv(Deliver(w, x, o, Holder(w)))
  {
    var v := Deliver(w, x, o, Holder(w));
    assert MyRows(v) == MyRows(w);
    assert PostFits(w, w.tab.posts[x]);
    assert v.tab.posts.Keys == {x};
    assert PostFits(v, v.tab.posts[x]);
  }

  lemma StoreKeepsTokens(w: World, x: nat)
    requires TokenInv(w) && x in w.tab.posts
    ensures TokenInv(StoreStep(w, x))
  {
    assert PostFits(w, w.tab.posts[x]);
    match w.tab.posts[x].phase
    case Answered(next, body) => DeliverKeepsTokens(w, x, if body.Some? then Got(body.value) else Empty);
    case Refused => DeliverKeepsTokens(w, x, Rejected(true));
    case Lost => DeliverKeepsTokens(w, x, Rejected(false));
    case _ =>
  }

  lemma SettleKeepsTokens(w: World, x: nat)
    requires TokenInv(w) && x in w.tab.posts && w.tab.posts[x].phase.Delivered?
    ensures TokenInv(SettleStep(w, x))
  {
    assert MyRows(SettleStep(w, x)) == MyRows(w);
  }

  lemma OthersKeepTokens(w: World, v: World)
    requires TokenInv(w) && v == w.(rows := v.rows)
    requires forall t <- w.mine :: t in v.rows <==> t in w.rows
    ensures TokenInv(v)
  {
    assert MyRows(v) == MyRows(w);
    forall x <- v.tab.posts ensures PostFits(v, v.tab.posts[x]) {
      assert PostFits(w, w.tab.posts[x]);
    }
  }

  lemma LostKeepsTokens(w: World, x: nat)
    requires TokenInv(w) && At(w, x, Posted)
    ensures TokenInv(Move(w, x, Lost))
  {
    assert PostFits(w, w.tab.posts[x]);
    assert MyRows(Move(w, x, Lost)) == MyRows(w);
  }

  lemma ServerStepKeepsTokens(w: World, e: ServerEvent)
    requires TokenInv(w)
    ensures TokenInv(ServerStep(w, e))
  {
    match e
    case Finds(x) => if At(w, x, Posted) { FindKeepsTokens(w, x); }
    case Checks(x) => if At(w, x, Found) { CheckKeepsTokens(w, x); }
    case Deletes(x) => DeleteKeepsTokens(w, x);
    case Creates(x, next, body) => CreateKeepsTokens(w, x, next, body);
  }

  lemma NetworkStepKeepsTokens(w: World, e: NetworkEvent)
    requires TokenInv(w)
    ensures TokenInv(NetworkStep(w, e))
  {
    match e
    case Loses(x) => if At(w, x, Posted) { LostKeepsTokens(w, x); }
    case Stores(x) => if x in w.tab.posts { StoreKeepsTokens(w, x); }
    case Settles(x) =>
      if x in w.tab.posts && w.tab.posts[x].phase.Delivered? { SettleKeepsTokens(w, x); }
  }

  lemma ClientStepKeepsTokens(w: World, e: ClientEvent)
    requires TokenInv(w)
    ensures TokenInv(ClientStep(w, e))
  {
    match e
    case Send(r) => KeepAliveSamePosts(w.tab); TabKeepsTokens(w, SendStep(w, r));
    case Reply(r, u) => if r in w.reqs { ReplyKeepsTokens(w, r, u); }
    case RequestResumes(r) => ResumeKeepsTokens(w, r);
    case TimerFires(t) => FireKeepsTokens(w, t);
    case TimerResumes(x) => TimerResumeKeepsTokens(w, x);
  }

  lemma OutsideStepKeepsTokens(w: World, e: OutsideEvent)
    requires TokenInv(w)
    ensures TokenInv(OutsideStep(w, e))
  {
    match e
    case OtherCreates(_, _) => OthersKeepTokens(w, OutsideStep(w, e));
    case OtherDeletes(_) => OthersKeepTokens(w, OutsideStep(w, e));
    case _ => TabKeepsTokens(w, OutsideStep(w, e));
  }

  lemma StepKeepsTokens(w: World, e: Event)
    requires TokenInv(w)
    ensures TokenInv(Step(w, e))
  {
    match e
    case Client(c) => ClientStepKeepsTokens(w, c);
    case Server(s) => ServerStepKeepsTokens(w, s);
    case Network(n) => NetworkStepKeepsTokens(w, n);
    case Outside(o) => OutsideStepKeepsTokens(w, o);
  }

  lemma {:induction false} RunKeepsTokens(w: World, es: seq<Event>)
    requires TokenInv(w)
    ensures TokenInv(Run(w, es))
    decreases |es|
  {
    if es != [] {
      StepKeepsTokens(w, es[0]);
      RunKeepsTokens(Step(w, es[0]), es[1..]);
    }
  }

  lemma LoginStartsTokens(w: World)
    requires LoggedIn(w)
    ensures TokenInv(w)
  {
    assert MyRows(w) == {w.tab.cookie};
  }

  // ---------------------------------------------------------------- the life of a row

  /** No row of the session is revoked. */
  predicate Unrevoked(w: World) {
    forall t <- w.mine :: t in w.rows ==> !w.rows[t].revoked
  }

  /** A row of the session never changes, and once gone it never comes back. */
  predicate RowsStay(w: World, v: World) {
    && w.mine <= v.mine
    && forall t <- w.mine :: t in v.rows ==> t in w.rows && v.rows[t] == w.rows[t]
  }

  lemma ServerKeepsRows(w: World, e: ServerEvent)
    requires Unrevoked(w)
    ensures Unrevoked(ServerStep(w, e)) && RowsStay(w, ServerStep(w, e))
  {
  }

  lemma OutsideKeepsRows(w: World, e: OutsideEvent)
    requires Unrevoked(w)
    ensures Unrevoked(OutsideStep(w, e)) && RowsStay(w, OutsideStep(w, e))
  {
    hide CountSet;
  }

  lemma StepKeepsRows(w: World, e: Event)
    requires Unrevoked(w)
    ensures Unrevoked(Step(w, e)) && RowsStay(w, Step(w, e))
  {
    hide ClientStep, ServerStep, NetworkStep, OutsideStep;
    match e
    case Client(_) =>
    case Server(s) => ServerKeepsRows(w, s);
    case Network(_) =>
    case Outside(o) => OutsideKeepsRows(w, o);
  }

  lemma {:induction false} RunKeepsRows(w: World, es: seq<Event>)
    requires Unrevoked(w)
    ensures Unrevoked(Run(w, es)) && RowsStay(w, Run(w, es))
    decreases |es|
  {
    hide Step;
    if es != [] {
      StepKeepsRows(w, es[0]);
      RunKeepsRows(Step(w, es[0]), es[1..]);
    }
  }

  /** In every run a token issued by a refresh is accepted, as long as the server has not used it up,
      for exactly seven days from its issue. */
  lemma IssuedForSevenDays(w: World, es: seq<Event>, x: nat, next: Token, body: Option<Access>, more: seq<Event>)
    requires LoggedIn(w)
    requires var v := Run(w, es); next !in v.mine && next in Step(v, Server(Creates(x, next, body))).mine
    ensures var v := Run(w, es);
            var u := Run(Step(v, Server(Creates(x, next, body))), more);
            next in u.rows ==> (Usable(u.rows, next, u.now) <==> u.now < v.now + 7 * 24 * 3600)
  {
    var v := Run(w, es);
    var issued := Step(v, Server(Creates(x, next, body)));
    RunKeepsRows(w, es);
    StepKeepsRows(v, Server(Creates(x, next, body)));
    assert issued.rows[next] == Row(false, v.now + REFRESH_TTL);
    RunKeepsRows(issued, more);
  }

  /** The statement of the refresh handler that brought a post to its new phase, with what it met and what
      it made of the table. */
  predicate Explained(w: World, v: World, x: nat)
    requires x in w.tab.posts && x in v.tab.posts
  {
    var was, raw := w.tab.posts[x].phase, w.tab.posts[x].presented;
    match v.tab.posts[x].phase
    case Found => was == Posted && Usable(w.rows, raw, w.now) && v.rows == w.rows
    case Refused =>
      || (was == Posted && !Usable(w.rows, raw, w.now) && v.rows == w.rows)
      || (was == Found && w.disabled && v.rows == w.rows - {raw})
    case Cleared => was == Found && !w.disabled && v.rows == w.rows
    case Rotating => was == Cleared && v.rows == w.rows - {raw}
    case Answered(next, _) =>
      was == Rotating && next !in w.rows && v.rows == w.rows[next := Row(false, w.now + REFRESH_TTL)]
    case _ => false
  }

  predicate Unmoved(w: World, v: World, x: nat) {
    x in w.tab.posts && x in v.tab.posts && v.tab.posts[x].phase == w.tab.posts[x].phase
  }

  lemma MovePhase(w: World, x: nat, p: Phase, y: nat)
    requires x in w.tab.posts && y in w.tab.posts
    ensures var v := Move(w, x, p);
            && y in v.tab.posts && v.rows == w.rows
            && v.tab.posts[y].phase == if y == x then p else w.tab.posts[y].phase
  {
  }

  lemma FindExplained(w: World, x: nat, y: nat)
    requires At(w, x, Posted) && y in w.tab.posts
    ensures var v := FindStep(w, x); Unmoved(w, v, y) || Explained(w, v, y)
  {
    hide Move, Usable;
    MovePhase(w, x, Found, y);
    MovePhase(w, x, Refused, y);
  }

  lemma CheckExplained(w: World, x: nat, y: nat)
    requires At(w, x, Found) && y in w.tab.posts
    ensures var v := CheckStep(w, x); Unmoved(w, v, y) || Explained(w, v, y)
  {
  }

  lemma DeleteExplained(w: World, x: nat, y: nat)
    requires y in w.tab.posts
    ensures var v := DeleteStep(w, x); Unmoved(w, v, y) || Explained(w, v, y)
  {
  }

  lemma CreateExplained(w: World, x: nat, next: Token, body: Option<Access>, y: nat)
    requires y in w.tab.posts
    ensures var v := CreateStep(w, x, next, body); Unmoved(w, v, y) || Explained(w, v, y)
  {
  }

  /** A post changes its phase on the server only as the refresh handler's statements allow: found only with
      a usable token; refused with an unusable one or, deleting its row, for a disabled account; let pass
      only when enabled; then its row deleted; and only then a new one issued for seven days. */
  lemma ServerPhase(w: World, e: ServerEvent, x: nat)
    requires x in w.tab.posts
    ensures var v := ServerStep(w, e); Unmoved(w, v, x) || Explained(w, v, x)
  {
    hide FindStep, CheckStep, DeleteStep, CreateStep, Explained;
    match e
    case Finds(y) => if At(w, y, Posted) { FindExplained(w, y, x); }
    case Checks(y) => if At(w, y, Found) { CheckExplained(w, y, x); }
    case Deletes(y) => DeleteExplained(w, y, x);
    case Creates(y, next, body) => CreateExplained(w, y, next, body, x);
  }

  // ---------------------------------------------------------------- safety

  /** The server would accept the token now, but for its age. */
  predicate Live(w: World, t: Token) {
    t in w.rows && (Usable(w.rows, t, w.now) <==> w.now < w.rows[t].expiresAt)
  }

  /** Over every interleaving: one shared refresh at most, and outside the rotation's own gap
      exactly one live token, unless (and only unless) the account was struck. */
  lemma SessionSafety(w: World, es: seq<Event>)
    requires LoggedIn(w)
    ensures var v := Run(w, es);
            && |v.tab.posts| <= 1
            && v.tab.posts.Keys == (if v.tab.inFlight.Some? then {v.tab.inFlight.value} else {})
            && (InGap(v) ==> MyRows(v) == {} && !v.struck)
            && (!InGap(v) ==> (MyRows(v) == {Holder(v)} <==> !v.struck))
            && (v.struck ==> MyRows(v) == {})
            && (v.missed ==> v.struck)
            && forall t <- MyRows(v) :: Live(v, t)
  {
    LoginStartsTokens(w);
    RunKeepsTokens(w, es);
    RunKeepsRows(w, es);
    var v := Run(w, es);
    if v.tab.inFlight.Some? {
      assert PostFits(v, v.tab.posts[v.tab.inFlight.value]);
      assert |v.tab.posts.Keys| == 1;
    }
  }

  /** A refresh that any step of any run sends presents a live row, exactly when the account has
      not been struck: a consumed token is never presented, and only age can make the server refuse it. */
  lemma NeverPresentsConsumed(w: World, es: seq<Event>, e: Event, x: nat)
    requires LoggedIn(w)
    requires x in Step(Run(w, es), e).tab.posts && x !in Run(w, es).tab.posts
    ensures var v := Run(w, es);
            && Step(v, e).tab.posts[x].phase == Posted
            && (Live(v, Step(v, e).tab.posts[x].presented) <==> !v.struck)
  {
    LoginStartsTokens(w);
    RunKeepsTokens(w, es);
    RunKeepsRows(w, es);
    var v := Run(w, es);
    OnlyRefreshPosts(v, e, x);
    assert v.tab.cookie in MyRows(v) <==> v.tab.cookie in v.rows;
  }

  lemma ClientPosts(v: World, e: ClientEvent)
    ensures var t := ClientStep(v, e).tab;
            SamePosts(v.tab, t) || SamePosts(RunRefresh(v.tab).0, t)
  {
    match e
    case Send(_) => KeepAliveSamePosts(v.tab);
    case Reply(r, _) => if r in v.reqs { UnauthorizedPosts(v.tab, v.reqs[r].retried); }
    case RequestResumes(r) =>
      if ResumeStep(v, r) != v { AfterRefreshSamePosts(v.tab, v.settled[v.reqs[r].phase.promise]); }
    case TimerFires(_) =>
    case TimerResumes(_) => KeepAliveSamePosts(v.tab);
  }

  /** No step but `RunRefresh` sends a refresh, and that one sends the cookie of the moment. */
  lemma OnlyRefreshPosts(v: World, e: Event, x: nat)
    requires x in Step(v, e).tab.posts && x !in v.tab.posts
    ensures e.Client? && v.tab.inFlight.None?
    ensures Step(v, e).tab.posts[x] == Post(v.tab.cookie, Posted)
  {
    if e.Client? { ClientPosts(v, e.c); }
  }

  /** Once struck, always struck: the server never issues this session another token. */
  lemma {:induction false} RevocationIsFinal(w: World, es: seq<Event>)
    requires TokenInv(w) && w.struck
    ensures var v := Run(w, es); v.struck && v.mine == w.mine && MyRows(v) == {}
    decreases |es|
  {
    if es != [] {
      StepKeepsTokens(w, es[0]);
      StruckStaysStruck(w, es[0]);
      RevocationIsFinal(Step(w, es[0]), es[1..]);
    }
  }

  lemma StruckStaysStruck(w: World, e: Event)
    requires TokenInv(w) && w.struck
    ensures Step(w, e).struck && Step(w, e).mine == w.mine
  {
    if e.Server? && e.s.Creates? && e.s.x in w.tab.posts { assert PostFits(w, w.tab.posts[e.s.x]); }
  }

  // ---------------------------------------------------------------- disabled accounts

  /** The refresh in flight has passed the test for disabled accounts and has not issued its token yet. */
  predicate PastTest(w: World) {
    w.tab.inFlight.Some? && (At(w, w.tab.inFlight.value, Cleared) || At(w, w.tab.inFlight.value, Rotating))
  }

  /** The tokens issued to the session, and the one that may still come. */
  function Issuable(w: World): nat {
    |w.mine| + (if PastTest(w) then 1 else 0)
  }

  predicate NeverEnabled(es: seq<Event>) {
    Outside(SetDisabled(false)) !in es
  }

  /** Nothing that leaves a token issued, or a refresh past the test, that was not there before. */
  predicate IssuesNone(w: World, v: World) {
    v.disabled && v.mine == w.mine && (PastTest(v) ==> PastTest(w))
  }

  lemma MoveIssuesNone(w: World, x: nat, p: Phase)
    requires w.disabled && x in w.tab.posts && !p.Cleared? && !p.Rotating?
    ensures IssuesNone(w, Move(w, x, p))
  {
  }

  lemma ServerIssues(w: World, e: ServerEvent)
    requires OneShared(w.tab) && w.disabled
    ensures var v := ServerStep(w, e);
            && v.disabled && (IssuesNone(w, v) || (PastTest(w) && v.mine == w.mine)
                              || (PastTest(w) && !PastTest(v) && |v.mine| == |w.mine| + 1))
  {
    hide Move, Usable;
    match e
    case Finds(x) => if At(w, x, Posted) { FindIssues(w, x); }
    case Checks(x) => if At(w, x, Found) { CheckIssues(w, x); }
    case Deletes(x) => DeleteIssues(w, x);
    case Creates(x, next, body) => CreateIssues(w, x, next, body);
  }

  lemma FindIssues(w: World, x: nat)
    requires w.disabled && x in w.tab.posts
    ensures IssuesNone(w, FindStep(w, x))
  {
    MoveIssuesNone(w, x, Found);
    MoveIssuesNone(w, x, Refused);
  }

  lemma CheckIssues(w: World, x: nat)
    requires w.disabled && x in w.tab.posts
    ensures IssuesNone(w, CheckStep(w, x))
  {
    MoveIssuesNone(w, x, Refused);
  }

  lemma DeleteIssues(w: World, x: nat)
    requires OneShared(w.tab) && w.disabled
    ensures var v := DeleteStep(w, x);
            v.disabled && v.mine == w.mine && (v == w || PastTest(w))
  {
  }

  lemma CreateIssues(w: World, x: nat, next: Token, body: Option<Access>)
    requires OneShared(w.tab) && w.disabled
    ensures var v := CreateStep(w, x, next, body);
            v.disabled && (v == w || (PastTest(w) && !PastTest(v) && v.mine == w.mine + {next} && next !in w.mine))
  {
  }

  lemma ClientIssues(w: World, e: ClientEvent)
    requires OneShared(w.tab) && w.disabled
    ensures IssuesNone(w, ClientStep(w, e))
  {
    ClientPosts(w, e);
  }

  lemma NetworkIssues(w: World, e: NetworkEvent)
    requires OneShared(w.tab) && w.disabled
    ensures IssuesNone(w, NetworkStep(w, e))
  {
    hide Deliver;
    match e
    case Loses(x) => if At(w, x, Posted) { MoveIssuesNone(w, x, Lost); }
    case Stores(x) => if x in w.tab.posts { StoreIssues(w, x); }
    case Settles(x) =>
  }

  lemma DeliverIssues(w: World, x: nat, o: Outcome, cookie: Token)
    requires w.disabled && x in w.tab.posts
    ensures IssuesNone(w, Deliver(w, x, o, cookie))
  {
  }

  lemma StoreIssues(w: World, x: nat)
    requires w.disabled && x in w.tab.posts
    ensures IssuesNone(w, StoreStep(w, x))
  {
    hide Deliver;
    match w.tab.posts[x].phase
    case Answered(next, body) => DeliverIssues(w, x, if body.Some? then Got(body.value) else Empty, next);
    case Refused => DeliverIssues(w, x, Rejected(true), w.tab.cookie);
    case Lost => DeliverIssues(w, x, Rejected(false), w.tab.cookie);
    case _ =>
  }

  lemma StepIssues(w: World, e: Event)
    requires TokenInv(w) && w.disabled && e != Outside(SetDisabled(false))
    ensures Issuable(Step(w, e)) <= Issuable(w) && Step(w, e).disabled
    ensures !PastTest(w) ==> Step(w, e).mine == w.mine && !PastTest(Step(w, e))
  {
    hide ClientStep, ServerStep, NetworkStep;
    match e
    case Client(c) => ClientIssues(w, c);
    case Server(s) => ServerIssues(w, s);
    case Network(n) => NetworkIssues(w, n);
    case Outside(_) =>
  }

  /** From the moment the account is disabled, and until it is enabled again, the session is issued at
      most one more token in any run, and none unless a refresh had already passed the test. */
  lemma {:induction false} DisabledIssuesAtMostOne(w: World, es: seq<Event>)
    requires TokenInv(w) && w.disabled && NeverEnabled(es)
    ensures w.mine <= Run(w, es).mine
    ensures Issuable(Run(w, es)) <= Issuable(w)
    ensures !PastTest(w) ==> Run(w, es).mine == w.mine
    decreases |es|
  {
    hide Step, TokenInv, Issuable, PastTest;
    if es != [] {
      assert es[0] in es;
      forall e | e in es[1..] ensures e in es {}
      StepIssues(w, es[0]);
      StepKeepsTokens(w, es[0]);
      MineGrows(w, es[0]);
      DisabledIssuesAtMostOne(Step(w, es[0]), es[1..]);
    }
  }

  lemma MineGrows(w: World, e: Event)
    ensures w.mine <= Step(w, e).mine
  {
    hide ClientStep, NetworkStep, OutsideStep;
  }

  /** And when one had passed it, the token does come: for every fresh token some run issues it. */
  lemma LateRotation(w: World, next: Token, body: Option<Access>)
    requires TokenInv(w) && w.disabled && PastTest(w) && next !in w.rows && next !in w.mine
    ensures var x := w.tab.inFlight.value;
            var v := Step(Step(w, Server(Deletes(x))), Server(Creates(x, next, body)));
            v.disabled && v.mine == w.mine + {next} && next in v.rows
  {
    var x := w.tab.inFlight.value;
    var mid := DeleteStep(w, x);
    assert At(mid, x, Rotating) && next !in mid.rows && mid.mine == w.mine && mid.disabled;
    LateCreate(mid, x, next, body);
  }

  lemma LateCreate(w: World, x: nat, next: Token, body: Option<Access>)
    requires At(w, x, Rotating) && next !in w.rows && next !in w.mine && w.disabled
    ensures var v := CreateStep(w, x, next, body);
            v.disabled && v.mine == w.mine + {next} && next in v.rows
  {
  }

  // ---------------------------------------------------------------- a struck tab

  /** A tab right after login whose user is disabled before its first refresh. */
  function DisabledTab(): World {
    World(map[7 := Row(false, 100)], 0, true,
          Tab(7, None, false, map[], {}, None, None, 0),
          map[], {}, map[], {7}, false, false, false)
  }

  /** Request 0 gets a 401 and the server strikes the row behind its refresh. */
  function Strike(): seq<Event> {
    [Client(Send(0)), Client(Reply(0, true)), Server(Finds(0)), Server(Checks(0))]
  }

  function StruckTab(): World {
    World(map[], 0, true,
          Tab(7, None, false, map[0 := Post(7, Refused)], {}, Some(0), None, 1),
          map[], {}, map[0 := Req(Waiting(0), true, 1, 0, 0, false)], {7}, true, false, false)
  }

  /** The 401 arrives, its promise settles and request 1 is sent. */
  function Aftermath(): seq<Event> {
    [Network(Stores(0)), Network(Settles(0)), Client(Send(1))]
  }

  lemma RunNext(w: World, es: seq<Event>, k: nat)
    requires k < |es|
    ensures Run(w, es[k..]) == Run(Step(w, es[k]), es[k + 1..])
  {
    assert es[k..][1..] == es[k + 1..];
  }

  lemma {:induction false} RunSplit(w: World, a: seq<Event>, b: seq<Event>)
    ensures Run(w, a + b) == Run(Run(w, a), b)
    decreases |a|
  {
    if a == [] {
      assert a + b == b;
    } else {
      assert (a + b)[1..] == a[1..] + b;
      RunSplit(Step(w, a[0]), a[1..], b);
    }
  }

  lemma StrikeStrikes()
    ensures Run(DisabledTab(), Strike()) == StruckTab()
  {
    var w, es := DisabledTab(), Strike();
    var w1 := Step(w, es[0]);
    var w2 := Step(w1, es[1]);
    var w3 := Step(w2, es[2]);
    assert w2.tab == Tab(7, None, false, map[0 := Post(7, Posted)], {}, Some(0), None, 1);
    assert w3.tab.posts == map[0 := Post(7, Found)];
    assert Step(w3, es[3]).tab.posts == map[0 := Post(7, Refused)] && Step(w3, es[3]).rows == map[];
    RunNext(w, es, 0);
    RunNext(w1, es, 1);
    RunNext(w2, es, 2);
    RunNext(w3, es, 3);
    assert es[0..] == es && es[4..] == [];
  }

  lemma StruckAftermath()
    ensures var v := Run(StruckTab(), Aftermath());
            && v.tab == Tab(7, None, false, map[], {}, None, None, 1) && v.rows == map[] && v.struck
            && 1 in v.reqs && v.reqs[1] == Req(Pending, false, 1, 0, 0, false)
  {
    var w, es := StruckTab(), Aftermath();
    var w1 := Step(w, es[0]);
    var w2 := Step(w1, es[1]);
    assert w1.tab.posts == map[0 := Post(7, Delivered(Rejected(true)))];
    assert w2.tab == Tab(7, None, false, map[], {}, None, None, 1);
    RunNext(w, es, 0);
    RunNext(w1, es, 1);
    RunNext(w2, es, 2);
    assert es[0..] == es && es[3..] == [];
  }

  /** The exception is real: once struck, the next 401 presents the deleted token, because the
      refusal leaves the refresh cookie in place. */
  lemma StruckTabPresentsDeadToken()
    ensures LoggedIn(DisabledTab())
    ensures var v := Run(DisabledTab(), Strike() + Aftermath());
            var u := Step(v, Client(Reply(1, true)));
            && v.struck && 1 in v.reqs
            && 1 in u.tab.posts && 1 !in v.tab.posts && u.tab.posts[1].presented !in v.rows
  {
    hide Run, Strike, Aftermath, StruckTab;
    RunSplit(DisabledTab(), Strike(), Aftermath());
    StrikeStrikes();
    StruckAftermath();
  }
}
