/** Rule-based insights: totals over metric lists, rates and growth over them, and five rules. */
module Insights {
  import opened Common

  datatype Metric = Metric(clicks: nat, impressions: nat)

  datatype SocialMetric = SocialMetric(followers: int, reach: int, engagement: real)

  datatype Project = Project(hasHandle: bool, healthScore: int)

  datatype Signals = Signals(
    currClicks: nat, prevClicks: nat, currImpressions: nat, prevImpressions: nat,
    currCTR: real, prevCTR: real, clickGrowth: real, impressionGrowth: real, ctrDelta: real,
    socialFollowers: int, socialReach: int, socialEngRate: real,
    hasGSCData: bool, hasSocialData: bool, dataPoints: nat)

  datatype Kind =
    | LowClickThrough | GoodImpressions | ExcellentClickThrough
    | TrafficUp | TrafficDown | SteadyGrowth | ConnectSearchConsole
    | ImpressionsSurging
    | LowEngagement | StrongEngagement | SteadyEngagement | ConnectMeta
    | HealthCritical | HealthFair | HealthStrong | FirstAudit

  datatype Insight = Insight(kind: Kind, priority: int)

  // ---------------------------------------------------------------- signals

  function Clicks(ms: seq<Metric>): nat {
    if ms == [] then 0 else Clicks(ms[..|ms| - 1]) + ms[|ms| - 1].clicks
  }

  function Impressions(ms: seq<Metric>): nat {
    if ms == [] then 0 else Impressions(ms[..|ms| - 1]) + ms[|ms| - 1].impressions
  }

  function Followers(ms: seq<SocialMetric>): int {
    if ms == [] then 0 else Followers(ms[..|ms| - 1]) + ms[|ms| - 1].followers
  }

  function Reach(ms: seq<SocialMetric>): int {
    if ms == [] then 0 else Reach(ms[..|ms| - 1]) + ms[|ms| - 1].reach
  }

  function Engagement(ms: seq<SocialMetric>): real {
    if ms == [] then 0.0 else Engagement(ms[..|ms| - 1]) + ms[|ms| - 1].engagement
  }

  /** Part of whole in percent, 0 when there is no whole. */
  function Rate(part: int, whole: int): real {
    if whole > 0 then part as real / whole as real * 100.0 else 0.0
  }

  /** Change in percent of the value before, 0 when there was none. */
  function Growth(curr: int, prev: int): real {
    Rate(curr - prev, prev)
  }

  function Compute(current: seq<Metric>, previous: seq<Metric>, social: seq<SocialMetric>): Signals {
    var cc, pc, ci, pi := Clicks(current), Clicks(previous), Impressions(current), Impressions(previous);
    Signals(cc, pc, ci, pi, Rate(cc, ci), Rate(pc, pi), Growth(cc, pc), Growth(ci, pi), Rate(cc, ci) - Rate(pc, pi),
            Followers(social), Reach(social),
            if social == [] then 0.0 else Engagement(social) / |social| as real,
            current != [], social != [], |current|)
  }

  method ComputeSignals(current: seq<Metric>, previous: seq<Metric>, social: seq<SocialMetric>) returns (s: Signals)
    ensures s == Compute(current, previous, social)
  {
    var cc, ci, hasGSCData := 0, 0, false;
    for i := 0 to |current|
      invariant cc == Clicks(current[..i]) && ci == Impressions(current[..i]) && hasGSCData == (i > 0)
    {
      assert current[..i + 1][..i] == current[..i];
      cc := cc + current[i].clicks;
      ci := ci + current[i].impressions;
      hasGSCData := true;
    }
    assert current[..|current|] == current;
    var pc, pi := 0, 0;
    for i := 0 to |previous|
      invariant pc == Clicks(previous[..i]) && pi == Impressions(previous[..i])
    {
      assert previous[..i + 1][..i] == previous[..i];
      pc := pc + previous[i].clicks;
      pi := pi + previous[i].impressions;
    }
    assert previous[..|previous|] == previous;
    var currCTR, prevCTR, clickGrowth, impressionGrowth := 0.0, 0.0, 0.0, 0.0;
    if ci > 0 {
      currCTR := cc as real / ci as real * 100.0;
    }
    if pi > 0 {
      prevCTR := pc as real / pi as real * 100.0;
    }
    if pc > 0 {
      clickGrowth := (cc - pc) as real / pc as real * 100.0;
    }
    if pi > 0 {
      impressionGrowth := (ci - pi) as real / pi as real * 100.0;
    }
    var followers, reach, engagement, hasSocialData := 0, 0, 0.0, false;
    for i := 0 to |social|
      invariant followers == Followers(social[..i]) && reach == Reach(social[..i])
      invariant engagement == Engagement(social[..i]) && hasSocialData == (i > 0)
    {
      assert social[..i + 1][..i] == social[..i];
      followers := followers + social[i].followers;
      reach := reach + social[i].reach;
      engagement := engagement + social[i].engagement;
      hasSocialData := true;
    }
    assert social[..|social|] == social;
    if |social| > 0 {
      engagement := engagement / |social| as real;
    }
    s := Signals(cc, pc, ci, pi, currCTR, prevCTR, clickGrowth, impressionGrowth, currCTR - prevCTR,
                 followers, reach, engagement, hasGSCData, hasSocialData, |current|);
  }

  // ---------------------------------------------------------------- rules

  function ClickThroughRule(s: Signals): Option<Kind> {
    if s.currImpressions == 0 then None
    else if s.currCTR < 2.0 && s.currImpressions > 500 then Some(LowClickThrough)
    else if 2.0 <= s.currCTR < 5.0 then Some(GoodImpressions)
    else if s.currCTR >= 5.0 then Some(ExcellentClickThrough)
    else None
  }

  function TrafficRule(s: Signals): Option<Kind> {
    if s.prevClicks > 0 && s.dataPoints >= 7 then
      if s.clickGrowth >= 20.0 then Some(TrafficUp)
      else if s.clickGrowth <= -15.0 then Some(TrafficDown)
      else if s.clickGrowth > 0.0 then Some(SteadyGrowth)
      else None
    else if !s.hasGSCData then Some(ConnectSearchConsole)
    else None
  }

  function SurgeRule(s: Signals): Option<Kind> {
    if s.currImpressions > 0 && s.prevImpressions > 0
       && s.impressionGrowth >= 30.0 && s.clickGrowth < s.impressionGrowth / 2.0
    then Some(ImpressionsSurging) else None
  }

  function SocialRule(s: Signals, project: Project): Option<Kind> {
    if s.hasSocialData && s.socialFollowers > 0 then
      if s.socialEngRate < 1.0 then Some(LowEngagement)
      else if s.socialEngRate >= 3.5 then Some(StrongEngagement)
      else Some(SteadyEngagement)
    else if project.hasHandle && !s.hasSocialData then Some(ConnectMeta)
    else None
  }

  function HealthRule(project: Project): Option<Kind> {
    if project.healthScore <= 0 then Some(FirstAudit)
    else if project.healthScore < 50 then Some(HealthCritical)
    else if project.healthScore < 75 then Some(HealthFair)
    else Some(HealthStrong)
  }

  function Fired(s: Signals, project: Project): seq<Option<Kind>> {
    [ClickThroughRule(s), TrafficRule(s), SurgeRule(s), SocialRule(s, project), HealthRule(project)]
  }

  /** The kinds that fired, in the order of the rules. */
  function Somes(fired: seq<Option<Kind>>): seq<Kind> {
    if fired == [] then []
    else Somes(fired[..|fired| - 1]) + (if fired[|fired| - 1].Some? then [fired[|fired| - 1].value] else [])
  }

  /** Each kind with its place in the list, counted from 1, as priority. */
  function Numbered(kinds: seq<Kind>): seq<Insight> {
    if kinds == [] then []
    else Numbered(kinds[..|kinds| - 1]) + [Insight(kinds[|kinds| - 1], |kinds|)]
  }

  lemma {:induction false} NumberedIs(kinds: seq<Kind>)
    ensures |Numbered(kinds)| == |kinds|
    ensures forall i | 0 <= i < |kinds| :: Numbered(kinds)[i] == Insight(kinds[i], i + 1)
    decreases |kinds|
  {
    if kinds != [] {
      NumberedIs(kinds[..|kinds| - 1]);
    }
  }

  /** The insights of the rules handled so far, and the next priority. */
  predicate Listed(insights: seq<Insight>, priority: int, fired: seq<Option<Kind>>) {
    insights == Numbered(Somes(fired)) && priority == |insights| + 1
  }

  /** The closure that every rule calls. */
  method AddInsight(insights: seq<Insight>, priority: int, kind: Kind, ghost fired: seq<Option<Kind>>)
    returns (list: seq<Insight>, next: int)
    requires Listed(insights, priority, fired)
    ensures Listed(list, next, fired + [Some(kind)])
  {
    list := insights + [Insight(kind, priority)];
    next := priority + 1;
    NumberedIs(Somes(fired));
    assert (fired + [Some(kind)])[..|fired|] == fired;
    assert (Somes(fired) + [kind])[..|Somes(fired)|] == Somes(fired);
  }

  lemma Silent(insights: seq<Insight>, priority: int, fired: seq<Option<Kind>>)
    requires Listed(insights, priority, fired)
    ensures Listed(insights, priority, fired + [None])
  {
    assert (fired + [None])[..|fired|] == fired;
    assert Somes(fired) + [] == Somes(fired);
  }

  method ApplyRule(insights: seq<Insight>, priority: int, rule: Option<Kind>, ghost fired: seq<Option<Kind>>)
    returns (list: seq<Insight>, next: int)
    requires Listed(insights, priority, fired)
    ensures Listed(list, next, fired + [rule])
  {
    if rule.Some? {
      list, next := AddInsight(insights, priority, rule.value, fired);
    } else {
      list, next := insights, priority;
      Silent(insights, priority, fired);
    }
  }

  method Generate(project: Project, current: seq<Metric>, previous: seq<Metric>, social: seq<SocialMetric>)
    returns (insights: seq<Insight>)
    ensures insights == Numbered(Somes(Fired(Compute(current, previous, social), project)))
  {
    hide Listed, Somes, Numbered, Compute, SurgeRule, SocialRule, HealthRule, TrafficRule, ClickThroughRule;
    var s := ComputeSignals(current, previous, social);
    var priority := 1;
    insights := [];
    NothingListed();
    var c, t, g, o, h := ClickThroughRule(s), TrafficRule(s), SurgeRule(s), SocialRule(s, project), HealthRule(project);
    insights, priority := ApplyRule(insights, priority, c, []);
    insights, priority := ApplyRule(insights, priority, t, [] + [c]);
    insights, priority := ApplyRule(insights, priority, g, [] + [c] + [t]);
    insights, priority := ApplyRule(insights, priority, o, [] + [c] + [t] + [g]);
    insights, priority := ApplyRule(insights, priority, h, [] + [c] + [t] + [g] + [o]);
    assert [] + [c] + [t] + [g] + [o] + [h] == Fired(s, project);
    ListedIs(insights, priority, Fired(s, project));
    var keep := if |insights| > 5 then 5 else |insights|;
    insights := insights[..keep];
  }

  lemma NothingListed()
    ensures Listed([], 1, [])
  {
  }

  lemma ListedIs(insights: seq<Insight>, priority: int, fired: seq<Option<Kind>>)
    requires Listed(insights, priority, fired)
    ensures insights == Numbered(Somes(fired)) && |insights| <= |fired|
  {
    NumberedIs(Somes(fired));
    SomesBound(fired);
  }

  lemma {:induction false} SomesBound(fired: seq<Option<Kind>>)
    ensures |Somes(fired)| <= |fired|
    ensures forall kind :: kind in Somes(fired) <==> Some(kind) in fired
    decreases |fired|
  {
    if fired != [] {
      SomesBound(fired[..|fired| - 1]);
      assert fired == fired[..|fired| - 1] + [fired[|fired| - 1]];
    }
  }

  // ---------------------------------------------------------------- what the rules promise

  /** Between one and five insights with priorities exactly 1..n, so the final cut drops nothing; and
      an insight is listed exactly when one of the five rules fired it. */
  lemma OneToFive(s: Signals, project: Project)
    ensures var insights := Numbered(Somes(Fired(s, project)));
            && 1 <= |insights| <= 5
            && (forall i | 0 <= i < |insights| :: insights[i].priority == i + 1)
            && (forall kind :: (exists i | 0 <= i < |insights| :: insights[i].kind == kind)
                 <==> Some(kind) in Fired(s, project))
  {
    var kinds := Somes(Fired(s, project));
    NumberedIs(kinds);
    SomesBound(Fired(s, project));
    var h := HealthRule(project).value;
    assert Fired(s, project)[4] == Some(h);
    assert h in kinds;
    forall kind ensures (exists i | 0 <= i < |kinds| :: Numbered(kinds)[i].kind == kind) <==> kind in kinds {
      if i :| 0 <= i < |kinds| && kinds[i] == kind {
        assert Numbered(kinds)[i].kind == kind;
      }
    }
  }

  /** a/b < c/d exactly when a*d < c*b. */
  lemma RatioOrder(a: real, b: real, c: real, d: real)
    requires b > 0.0 && d > 0.0
    ensures a / b < c / d <==> a * d < c * b
  {
    var x, y := a / b, c / d;
    assert a == x * b && c == y * d;
    assert a * d == x * (b * d) && c * b == y * (b * d);
    assert b * d > 0.0;
    if x < y {
      assert (y - x) * (b * d) > 0.0;
    } else {
      assert (x - y) * (b * d) >= 0.0;
    }
  }

  lemma LessOne(a: real, b: real)
    requires b > 0.0
    ensures (a - b) / b == a / b - 1.0
  {
    var x, y := (a - b) / b, a / b;
    assert x * b == a - b && y * b == a;
    var d := y - x - 1.0;
    assert d * b == 0.0;
    assert d > 0.0 ==> d * b > 0.0;
    assert d < 0.0 ==> (-d) * b > 0.0;
  }

  /** When impressions grew by 30% or more and clicks by less than half of that, click-through fell. */
  lemma SurgeLowersRate(cc: nat, pc: nat, ci: nat, pi: nat)
    requires pc > 0 && pi > 0 && ci > 0
    requires Growth(ci, pi) >= 30.0 && Growth(cc, pc) < Growth(ci, pi) / 2.0
    ensures Rate(cc, ci) < Rate(pc, pi)
  {
    var c, p, i, j := cc as real, pc as real, ci as real, pi as real;
    var up := i / j;
    var clicks := c / p;
    LessOne(i, j);
    LessOne(c, p);
    assert up > 1.0 && clicks < (up + 1.0) / 2.0;
    assert clicks < up;
    RatioOrder(c, p, i, j);
    assert c * j < i * p;
    RatioOrder(c, i, p, j);
  }

  /** "Impressions surging" comes with a strictly lower click-through rate exactly when there were
      clicks before: without any, both rates' comparison is against zero and the rate cannot fall. */
  lemma SurgeMeansRateFell(current: seq<Metric>, previous: seq<Metric>, social: seq<SocialMetric>)
    requires SurgeRule(Compute(current, previous, social)).Some?
    ensures var s := Compute(current, previous, social);
            s.currCTR < s.prevCTR <==> s.prevClicks > 0
  {
    var s := Compute(current, previous, social);
    if s.prevClicks > 0 {
      SurgeLowersRate(s.currClicks, s.prevClicks, s.currImpressions, s.prevImpressions);
    } else {
      RateNotNegative(s.currClicks, s.currImpressions);
      assert s.prevCTR == 0.0;
    }
  }

  lemma RateNotNegative(part: nat, whole: nat)
    ensures Rate(part, whole) >= 0.0
  {
  }

  /** A project with no clicks in the first period: the surge is announced although the rate rose. */
  lemma SurgeWithoutClicksBefore()
    ensures var s := Compute([Metric(50, 200)], [Metric(0, 100)], []);
            SurgeRule(s) == Some(ImpressionsSurging) && s.currCTR > s.prevCTR
  {
    assert Clicks([Metric(50, 200)]) == 50 && Impressions([Metric(50, 200)]) == 200;
    assert Clicks([Metric(0, 100)]) == 0 && Impressions([Metric(0, 100)]) == 100;
  }

  lemma GrowthSign(curr: nat, prev: nat)
    requires prev > 0
    ensures Growth(curr, prev) > 0.0 <==> curr > prev
    ensures Growth(curr, prev) < 0.0 <==> curr < prev
  {
    var d, p := (curr - prev) as real, prev as real;
    assert d / p * p == d;
  }

  // ---------------------------------------------------------------- the thresholds in whole numbers

  lemma RateAgainst(part: int, whole: int, num: int, den: int)
    requires whole > 0 && den > 0
    ensures Rate(part, whole) < num as real / den as real * 100.0 <==> part * den < num * whole
    ensures Rate(part, whole) == num as real / den as real * 100.0 <==> part * den == num * whole
  {
    var p, w, n, d := part as real, whole as real, num as real, den as real;
    RatioOrder(p, w, n, d);
    RatioOrder(n, d, p, w);
    assert (part * den) as real == p * d && (num * whole) as real == n * w;
  }

  /** Which click-through insight appears, by counts alone: below 2% only with more than 500
      impressions, from 2% to below 5%, and from 5%. */
  lemma ClickThroughByCounts(current: seq<Metric>, previous: seq<Metric>, social: seq<SocialMetric>)
    ensures var s := Compute(current, previous, social);
            var kind := ClickThroughRule(s);
            var shown, clicked := s.currImpressions, s.currClicks;
            && (kind == Some(LowClickThrough) <==> shown > 500 && 50 * clicked < shown)
            && (kind == Some(GoodImpressions) <==> 20 * clicked < shown <= 50 * clicked)
            && (kind == Some(ExcellentClickThrough) <==> 0 < shown <= 20 * clicked)
            && (kind == None <==> shown == 0 || (shown <= 500 && 50 * clicked < shown))
  {
    var s := Compute(current, previous, social);
    if s.currImpressions > 0 {
      RateAgainst(s.currClicks, s.currImpressions, 1, 50);
      RateAgainst(s.currClicks, s.currImpressions, 1, 20);
      assert 1 as real / 50 as real * 100.0 == 2.0 && 1 as real / 20 as real * 100.0 == 5.0;
    }
  }

  /** Which traffic insight appears: up from a fifth more, down from 15% less, steady in between when
      there is any growth; and with no earlier clicks or under a week of data none of them. */
  lemma TrafficByCounts(current: seq<Metric>, previous: seq<Metric>, social: seq<SocialMetric>)
    ensures var s := Compute(current, previous, social);
            var kind := TrafficRule(s);
            var known := s.prevClicks > 0 && |current| >= 7;
            && (kind == Some(TrafficUp) <==> known && 5 * s.currClicks >= 6 * s.prevClicks)
            && (kind == Some(TrafficDown) <==> known && 20 * s.currClicks <= 17 * s.prevClicks)
            && (kind == Some(SteadyGrowth) <==>
                  known && s.prevClicks < s.currClicks && 5 * s.currClicks < 6 * s.prevClicks)
            && (kind == Some(ConnectSearchConsole) <==> current == [])
  {
    var s := Compute(current, previous, social);
    if s.prevClicks > 0 {
      GrowthSign(s.currClicks, s.prevClicks);
      RateAgainst(s.currClicks - s.prevClicks, s.prevClicks, 1, 5);
      RateAgainst(s.currClicks - s.prevClicks, s.prevClicks, -3, 20);
      assert 1 as real / 5 as real * 100.0 == 20.0 && -3 as real / 20 as real * 100.0 == -15.0;
    }
  }

  /** Which social insight appears: by the sum of the engagement rates against 1% and 3.5% for each metric, once
      there are followers; the hint to connect exactly for a handle without any metric. */
  lemma SocialByCounts(current: seq<Metric>, previous: seq<Metric>, social: seq<SocialMetric>, project: Project)
    ensures var kind := SocialRule(Compute(current, previous, social), project);
            var known := social != [] && Followers(social) > 0;
            && (kind == Some(LowEngagement) <==> known && Engagement(social) < |social| as real)
            && (kind == Some(StrongEngagement) <==> known && 2.0 * Engagement(social) >= 7.0 * |social| as real)
            && (kind == Some(SteadyEngagement) <==>
                  known && |social| as real <= Engagement(social) && 2.0 * Engagement(social) < 7.0 * |social| as real)
            && (kind == Some(ConnectMeta) <==> social == [] && project.hasHandle)
            && (kind == None <==> !known && !(social == [] && project.hasHandle))
  {
    if social != [] {
      var sum, n := Engagement(social), |social| as real;
      RatioOrder(sum, n, 1.0, 1.0);
      RatioOrder(sum, n, 7.0, 2.0);
      assert 7.0 / 2.0 == 3.5;
    }
  }

  /** Which health insight appears, by the score alone; one always does. */
  lemma HealthByScore(project: Project)
    ensures var kind, score := HealthRule(project), project.healthScore;
            && (kind == Some(FirstAudit) <==> score <= 0) && (kind == Some(HealthCritical) <==> 1 <= score <= 49)
            && (kind == Some(HealthFair) <==> 50 <= score <= 74) && (kind == Some(HealthStrong) <==> score >= 75)
  {
  }

  /** When a surge is announced: impressions up by three tenths or more, and clicks by less than half of that. */
  lemma SurgeByCounts(current: seq<Metric>, previous: seq<Metric>, social: seq<SocialMetric>)
    ensures var s := Compute(current, previous, social);
            var cc: int, pc: int, ci: int, pi: int := s.currClicks, s.prevClicks, s.currImpressions, s.prevImpressions;
            && (SurgeRule(s) == Some(ImpressionsSurging) <==>
                  pi > 0 && 10 * ci >= 13 * pi && (pc == 0 || 2 * (cc - pc) * pi < (ci - pi) * pc))
            && (SurgeRule(s).Some? ==> SurgeRule(s) == Some(ImpressionsSurging))
  {
    var s := Compute(current, previous, social);
    var cc: int, pc: int, ci: int, pi: int := s.currClicks, s.prevClicks, s.currImpressions, s.prevImpressions;
    if pi > 0 {
      RateAgainst(ci - pi, pi, 3, 10);
      assert 3 as real / 10 as real * 100.0 == 30.0;
      if pc > 0 { HalfGrowth(cc, pc, ci, pi); }
    }
  }

  lemma HalfGrowth(cc: nat, pc: nat, ci: nat, pi: nat)
    requires pc > 0 && pi > 0
    ensures Growth(cc, pc) < Growth(ci, pi) / 2.0 <==> 2 * (cc - pc) * pi < (ci - pi) * pc
  {
    var c, p, i, q := (cc - pc) as real, pc as real, (ci - pi) as real, pi as real;
    RatioOrder(2.0 * c, p, i, q);
    assert 2.0 * c / p == 2.0 * (c / p);
    assert (2 * (cc - pc) * pi) as real == 2.0 * c * q && ((ci - pi) * pc) as real == i * p;
  }

  /** The totals are sums: every list's total is that of its parts. */
  lemma {:induction false} TotalsAdd(a: seq<Metric>, b: seq<Metric>)
    ensures Clicks(a + b) == Clicks(a) + Clicks(b) && Impressions(a + b) == Impressions(a) + Impressions(b)
    ensures forall m: Metric :: Clicks([m]) == m.clicks && Impressions([m]) == m.impressions
    decreases |b|
  {
    if b == [] {
      assert a + b == a;
    } else {
      var n := |a + b| - 1;
      assert (a + b)[..n] == a + b[..|b| - 1] && (a + b)[n] == b[|b| - 1];
      TotalsAdd(a, b[..|b| - 1]);
    }
    forall m: Metric ensures Clicks([m]) == m.clicks && Impressions([m]) == m.impressions {
      assert [m][..0] == [];
    }
  }

  lemma {:induction false} SocialTotalsAdd(a: seq<SocialMetric>, b: seq<SocialMetric>)
    ensures Followers(a + b) == Followers(a) + Followers(b) && Reach(a + b) == Reach(a) + Reach(b)
    ensures Engagement(a + b) == Engagement(a) + Engagement(b)
    ensures forall m: SocialMetric :: Followers([m]) == m.followers && Reach([m]) == m.reach
                                      && Engagement([m]) == m.engagement
    decreases |b|
  {
    if b == [] {
      assert a + b == a;
    } else {
      var n := |a + b| - 1;
      assert (a + b)[..n] == a + b[..|b| - 1] && (a + b)[n] == b[|b| - 1];
      SocialTotalsAdd(a, b[..|b| - 1]);
    }
    forall m: SocialMetric ensures Followers([m]) == m.followers && Reach([m]) == m.reach
                                   && Engagement([m]) == m.engagement {
      assert [m][..0] == [];
    }
  }

  /** The place of a kind's rule among the five. */
  function Rank(kind: Kind): nat {
    match kind
    case LowClickThrough | GoodImpressions | ExcellentClickThrough => 0
    case TrafficUp | TrafficDown | SteadyGrowth | ConnectSearchConsole => 1
    case ImpressionsSurging => 2
    case LowEngagement | StrongEngagement | SteadyEngagement | ConnectMeta => 3
    case HealthCritical | HealthFair | HealthStrong | FirstAudit => 4
  }

  predicate RankedBy(kinds: seq<Kind>, n: nat) {
    && (forall i | 0 <= i < |kinds| :: Rank(kinds[i]) < n)
    && forall i, j | 0 <= i < j < |kinds| :: Rank(kinds[i]) < Rank(kinds[j])
  }

  lemma {:induction false} SomesRanked(fired: seq<Option<Kind>>)
    requires forall i | 0 <= i < |fired| && fired[i].Some? :: Rank(fired[i].value) == i
    ensures RankedBy(Somes(fired), |fired|)
    decreases |fired|
  {
    if fired != [] {
      SomesRanked(fired[..|fired| - 1]);
    }
  }

  /** The insights come in the order of the rules: click-through, traffic, surge, social, health. */
  lemma InRuleOrder(s: Signals, project: Project, i: nat, j: nat)
    requires i < j < |Numbered(Somes(Fired(s, project)))|
    ensures var insights := Numbered(Somes(Fired(s, project)));
            Rank(insights[i].kind) < Rank(insights[j].kind)
  {
    SomesRanked(Fired(s, project));
    NumberedIs(Somes(Fired(s, project)));
  }

  /** `rate` is `part` of `whole` in percent, 0 without a whole. */
  predicate IsPercent(rate: real, part: int, whole: nat) {
    if whole > 0 then rate * whole as real == 100.0 * part as real else rate == 0.0
  }

  lemma RateIsPercent(part: int, whole: nat)
    ensures IsPercent(Rate(part, whole), part, whole)
  {
    if whole > 0 {
      var q := part as real / whole as real;
      Times(part as real, whole as real);
      assert q * 100.0 * whole as real == 100.0 * (q * whole as real);
    }
  }

  lemma Times(a: real, b: real)
    requires b != 0.0
    ensures a / b * b == a
  {
  }

  predicate IsMean(mean: real, sum: real, n: nat) {
    if n > 0 then mean * n as real == sum else mean == 0.0
  }

  /** The rates and growths of the signals are those percentages of the totals. */
  lemma SignalsAre(current: seq<Metric>, previous: seq<Metric>, social: seq<SocialMetric>)
    ensures var s := Compute(current, previous, social);
            && IsPercent(s.currCTR, s.currClicks, s.currImpressions)
            && IsPercent(s.prevCTR, s.prevClicks, s.prevImpressions) && s.prevCTR + s.ctrDelta == s.currCTR
            && IsPercent(s.clickGrowth, s.currClicks - s.prevClicks, s.prevClicks)
            && IsPercent(s.impressionGrowth, s.currImpressions - s.prevImpressions, s.prevImpressions)
            && IsMean(s.socialEngRate, Engagement(social), |social|)
            && s.socialReach == Reach(social) && s.socialFollowers == Followers(social)
  {
    hide Rate, IsPercent;
    var s := Compute(current, previous, social);
    RateIsPercent(s.currClicks, s.currImpressions);
    RateIsPercent(s.prevClicks, s.prevImpressions);
    RateIsPercent(s.currClicks - s.prevClicks, s.prevClicks);
    RateIsPercent(s.currImpressions - s.prevImpressions, s.prevImpressions);
    if social != [] { Times(Engagement(social), |social| as real); }
  }
}
