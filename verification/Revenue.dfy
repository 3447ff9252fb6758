/** The admin dashboard's aggregates over the subscription and plan tables. */
module Revenue {
  import opened Common
  import opened Billing

  datatype Plan = Plan(monthlyCents: int, yearlyCents: int)

  datatype Group = Group(code: string, count: nat)

  // ---------------------------------------------------------------- counts

  function CountStatus(subs: seq<Sub>, status: Status): nat {
    if subs == [] then 0
    else CountStatus(subs[..|subs| - 1], status) + (if subs[|subs| - 1].status == status then 1 else 0)
  }

  function CountLive(subs: seq<Sub>, code: string): nat {
    if subs == [] then 0
    else
      var last := subs[|subs| - 1];
      CountLive(subs[..|subs| - 1], code) + (if Live(last) && last.plan == code then 1 else 0)
  }

  /** One more row for a plan code: its group grows, or a new group starts. */
  function Tally(groups: seq<Group>, code: string): seq<Group> {
    if groups == [] then [Group(code, 1)]
    else if groups[0].code == code then [Group(code, groups[0].count + 1)] + groups[1..]
    else [groups[0]] + Tally(groups[1..], code)
  }

  /** SELECT plan_code, count(*) WHERE status IN (active, trialing) GROUP BY plan_code. */
  function GroupByPlan(subs: seq<Sub>): seq<Group> {
    if subs == [] then []
    else
      var groups := GroupByPlan(subs[..|subs| - 1]);
      if Live(subs[|subs| - 1]) then Tally(groups, subs[|subs| - 1].plan) else groups
  }

  function Total(groups: seq<Group>): nat {
    if groups == [] then 0 else groups[0].count + Total(groups[1..])
  }

  predicate DistinctCodes(groups: seq<Group>) {
    forall i, j | 0 <= i < j < |groups| :: groups[i].code != groups[j].code
  }

  function CountOf(groups: seq<Group>, code: string): nat {
    if groups == [] then 0 else if groups[0].code == code then groups[0].count else CountOf(groups[1..], code)
  }

  lemma {:induction false} TallyAddsOne(groups: seq<Group>, code: string, other: string)
    ensures Total(Tally(groups, code)) == Total(groups) + 1
    ensures CountOf(Tally(groups, code), other) == CountOf(groups, other) + (if other == code then 1 else 0)
    decreases |groups|
  {
    var r := Tally(groups, code);
    if groups != [] {
      if groups[0].code == code {
        assert r[1..] == groups[1..];
      } else {
        TallyAddsOne(groups[1..], code, other);
        assert r[1..] == Tally(groups[1..], code);
      }
    }
  }

  lemma {:induction false} TallyKeepsDistinct(groups: seq<Group>, code: string)
    requires DistinctCodes(groups)
    ensures DistinctCodes(Tally(groups, code))
    ensures forall i | 0 <= i < |Tally(groups, code)| ::
              || Tally(groups, code)[i].code == code
              || exists j | 0 <= j < |groups| :: groups[j].code == Tally(groups, code)[i].code
    decreases |groups|
  {
    var r := Tally(groups, code);
    if groups != [] {
      if groups[0].code == code {
        assert forall i | 0 < i < |r| :: r[i] == groups[i];
      } else {
        TallyKeepsDistinct(groups[1..], code);
        var rest := Tally(groups[1..], code);
        forall i | 0 < i < |r|
          ensures r[i].code == code || exists j | 1 <= j < |groups| :: groups[j].code == r[i].code
        {
          if r[i].code != code {
            assert r[i] == rest[i - 1];
            var j :| 0 <= j < |groups[1..]| && groups[1..][j].code == rest[i - 1].code;
            assert groups[j + 1].code == r[i].code;
          }
        }
      }
    }
  }

  /** The rows of the grouped query: one per plan code, each with the number of live subscriptions on
      that code, together exactly the active and trialing ones. */
  lemma {:induction false} BreakdownCounts(subs: seq<Sub>, code: string)
    ensures var groups := GroupByPlan(subs);
            && DistinctCodes(groups)
            && CountOf(groups, code) == CountLive(subs, code)
            && Total(groups) == CountStatus(subs, Active) + CountStatus(subs, Trialing)
    decreases |subs|
  {
    if subs != [] {
      var init := subs[..|subs| - 1];
      BreakdownCounts(init, code);
      TallyAddsOne(GroupByPlan(init), subs[|subs| - 1].plan, code);
      TallyKeepsDistinct(GroupByPlan(init), subs[|subs| - 1].plan);
    }
  }

  /** The loop that copies the grouped rows into the response's map loses none of them. */
  method PlanCounts(groups: seq<Group>) returns (planCounts: map<string, nat>)
    requires DistinctCodes(groups)
    ensures forall code :: code in planCounts <==> exists i | 0 <= i < |groups| :: groups[i].code == code
    ensures forall i | 0 <= i < |groups| :: planCounts[groups[i].code] == groups[i].count
  {
    planCounts := map[];
    for i := 0 to |groups|
      invariant forall code :: code in planCounts <==> exists j | 0 <= j < i :: groups[j].code == code
      invariant forall j | 0 <= j < i :: planCounts[groups[j].code] == groups[j].count
    {
      planCounts := planCounts[groups[i].code := groups[i].count];
    }
  }

  // ---------------------------------------------------------------- users with a current row

  function LiveUsers(subs: seq<Sub>): set<nat> {
    if subs == [] then {}
    else LiveUsers(subs[..|subs| - 1]) + (if Live(subs[|subs| - 1]) then {subs[|subs| - 1].user} else {})
  }

  lemma {:induction false} LiveUserHasRow(subs: seq<Sub>, user: nat)
    ensures user in LiveUsers(subs) <==> exists i | 0 <= i < |subs| :: subs[i].user == user && Live(subs[i])
    decreases |subs|
  {
    if subs != [] {
      var init := subs[..|subs| - 1];
      LiveUserHasRow(init, user);
      if i :| 0 <= i < |subs| && subs[i].user == user && Live(subs[i]) {
        assert i < |init| ==> init[i] == subs[i];
      }
      if j :| 0 <= j < |init| && init[j].user == user && Live(init[j]) {
        assert subs[j] == init[j];
      }
    }
  }

  lemma {:induction false} OneLiveRowEach(subs: seq<Sub>)
    requires forall i, j | 0 <= i < j < |subs| && subs[i].user == subs[j].user :: !Live(subs[i])
    ensures |LiveUsers(subs)| == CountStatus(subs, Active) + CountStatus(subs, Trialing)
    decreases |subs|
  {
    if subs != [] {
      var init := subs[..|subs| - 1];
      OneLiveRowEach(init);
      LiveUserHasRow(init, subs[|subs| - 1].user);
    }
  }

  lemma CurrentIffLive(subs: seq<Sub>, user: nat)
    ensures Current(subs, user).Some? <==> user in LiveUsers(subs)
  {
    LiveUserHasRow(subs, user);
    PickFindsOne(subs, user);
  }

  lemma {:induction false} PickFindsOne(subs: seq<Sub>, user: nat)
    ensures Pick(subs, user, true).Some? <==> exists i | 0 <= i < |subs| :: Eligible(subs[i], user, true)
    decreases |subs|
  {
    if subs != [] {
      var init := subs[..|subs| - 1];
      PickFindsOne(init, user);
      if i :| 0 <= i < |subs| && Eligible(subs[i], user, true) {
        assert i < |init| ==> init[i] == subs[i];
      }
      if j :| 0 <= j < |init| && Eligible(init[j], user, true) {
        assert subs[j] == init[j];
      }
    }
  }

  /** By the table's invariant the plan breakdown counts people, not rows: in every run of the
      subscription handlers it adds up to the number of users who have a current subscription. */
  lemma BreakdownCountsUsers(db: Db, ops: seq<Op>)
    requires Start(db)
    ensures var subs := Run(db, ops).subs;
            Total(GroupByPlan(subs)) == |set user | user in Run(db, ops).users && Current(subs, user).Some?|
  {
    RunKeepsInv(db, ops);
    var end := Run(db, ops);
    BreakdownCounts(end.subs, FREE);
    OneLiveRowEach(end.subs);
    var current := set user | user in end.users && Current(end.subs, user).Some?;
    forall user ensures user in current <==> user in LiveUsers(end.subs) {
      CurrentIffLive(end.subs, user);
      LiveUserHasRow(end.subs, user);
    }
    assert current == LiveUsers(end.subs);
  }

  // ---------------------------------------------------------------- revenue

  /** SQL's integer division, which truncates toward zero. */
  function Quotient(a: int): int {
    if a >= 0 then a / 12 else -((-a) / 12)
  }

  /** SUM over active subscriptions on `code`, joined with the plan row of that code. */
  function SumActive(subs: seq<Sub>, code: string, plans: map<string, Plan>, cents: Plan -> int): int {
    if subs == [] then 0
    else
      var last := subs[|subs| - 1];
      SumActive(subs[..|subs| - 1], code, plans, cents)
      + (if last.status == Active && last.plan == code && last.plan in plans then cents(plans[last.plan]) else 0)
  }

  function MonthlyPrice(p: Plan): int {
    p.monthlyCents
  }

  function YearlyShare(p: Plan): int {
    Quotient(p.yearlyCents)
  }

  function Mrr(subs: seq<Sub>, plans: map<string, Plan>): int {
    SumActive(subs, PRO_MONTHLY, plans, MonthlyPrice)
    + SumActive(subs, PRO_YEARLY, plans, YearlyShare)
  }

  function ArrProxy(subs: seq<Sub>, plans: map<string, Plan>): int {
    Mrr(subs, plans) * 12
  }

  /** What a year of the active subscriptions brings in: twelve months of each monthly one, and the
      yearly price of each yearly one. */
  function YearlyRevenue(subs: seq<Sub>, plans: map<string, Plan>): int {
    if subs == [] then 0
    else
      var last := subs[|subs| - 1];
      var due :=
        if last.status != Active || last.plan !in plans then 0
        else if last.plan == PRO_MONTHLY then 12 * plans[last.plan].monthlyCents
        else if last.plan == PRO_YEARLY then plans[last.plan].yearlyCents
        else 0;
      YearlyRevenue(subs[..|subs| - 1], plans) + due
  }

  function CountActive(subs: seq<Sub>, code: string): nat {
    if subs == [] then 0
    else
      var last := subs[|subs| - 1];
      CountActive(subs[..|subs| - 1], code) + (if last.status == Active && last.plan == code then 1 else 0)
  }

  /** The cents a yearly price loses when it is cut into twelfths. */
  function Lost(plans: map<string, Plan>): int {
    if PRO_YEARLY in plans then plans[PRO_YEARLY].yearlyCents - 12 * Quotient(plans[PRO_YEARLY].yearlyCents) else 0
  }

  lemma {:induction false} SumIsProduct(subs: seq<Sub>, code: string, plans: map<string, Plan>, cents: Plan -> int)
    ensures SumActive(subs, code, plans, cents)
         == CountActive(subs, code) * (if code in plans then cents(plans[code]) else 0)
    decreases |subs|
  {
    if subs != [] {
      var each := if code in plans then cents(plans[code]) else 0;
      var n := CountActive(subs[..|subs| - 1], code);
      SumIsProduct(subs[..|subs| - 1], code, plans, cents);
      assert (n + 1) * each == n * each + each;
    }
  }

  lemma {:induction false} YearlyIsProduct(subs: seq<Sub>, plans: map<string, Plan>)
    ensures YearlyRevenue(subs, plans)
         == CountActive(subs, PRO_MONTHLY) * (if PRO_MONTHLY in plans then 12 * plans[PRO_MONTHLY].monthlyCents else 0)
            + CountActive(subs, PRO_YEARLY) * (if PRO_YEARLY in plans then plans[PRO_YEARLY].yearlyCents else 0)
    decreases |subs|
  {
    if subs != [] {
      YearlyIsProduct(subs[..|subs| - 1], plans);
      var m := if PRO_MONTHLY in plans then 12 * plans[PRO_MONTHLY].monthlyCents else 0;
      var y := if PRO_YEARLY in plans then plans[PRO_YEARLY].yearlyCents else 0;
      var i, j := CountActive(subs[..|subs| - 1], PRO_MONTHLY), CountActive(subs[..|subs| - 1], PRO_YEARLY);
      assert (i + 1) * m == i * m + m && (j + 1) * y == j * y + y;
      PlansDiffer();
    }
  }

  lemma PlansDiffer()
    ensures PRO_MONTHLY != PRO_YEARLY
  {
    assert PRO_MONTHLY[4] == 'm' && PRO_YEARLY[4] == 'y';
  }

  /** The proxy falls short of a year's revenue by exactly the lost cents of each active yearly
      subscription; so with a non-negative price by 0 to 11 cents for each, and by nothing when there
      is none or twelve divides the price. */
  lemma {:induction false} ArrShortfall(subs: seq<Sub>, plans: map<string, Plan>)
    ensures var missing := YearlyRevenue(subs, plans) - ArrProxy(subs, plans);
            var yearly := CountActive(subs, PRO_YEARLY);
            && missing == yearly * Lost(plans)
            && (PRO_YEARLY in plans && plans[PRO_YEARLY].yearlyCents >= 0 ==>
                  0 <= missing <= 11 * yearly
                  && (missing == 0 <==> yearly == 0 || plans[PRO_YEARLY].yearlyCents % 12 == 0))
            && (PRO_YEARLY in plans && plans[PRO_YEARLY].yearlyCents < 0 ==> -11 * yearly <= missing <= 0)
            && (PRO_YEARLY !in plans ==> missing == 0)
  {
    hide SumActive, YearlyRevenue, CountActive, Quotient;
    var months, years := CountActive(subs, PRO_MONTHLY), CountActive(subs, PRO_YEARLY);
    var m := if PRO_MONTHLY in plans then plans[PRO_MONTHLY].monthlyCents else 0;
    var share := if PRO_YEARLY in plans then Quotient(plans[PRO_YEARLY].yearlyCents) else 0;
    var y := if PRO_YEARLY in plans then plans[PRO_YEARLY].yearlyCents else 0;
    SumIsProduct(subs, PRO_MONTHLY, plans, MonthlyPrice);
    SumIsProduct(subs, PRO_YEARLY, plans, YearlyShare);
    YearlyIsProduct(subs, plans);
    assert Mrr(subs, plans) == months * m + years * share;
    assert YearlyRevenue(subs, plans) == months * (12 * m) + years * y;
    Shortfall(months, m, years, share, y);
    QuotientRest(y);
    Between(years, y - 12 * share);
  }

  lemma QuotientRest(a: int)
    ensures a >= 0 ==> a - 12 * Quotient(a) == a % 12
    ensures a < 0 ==> -11 <= a - 12 * Quotient(a) <= 0
  {
  }

  lemma Shortfall(months: nat, m: int, years: nat, share: int, y: int)
    ensures months * (12 * m) + years * y - 12 * (months * m + years * share) == years * (y - 12 * share)
  {
  }

  lemma Between(n: nat, each: int)
    ensures 0 <= each <= 11 ==> 0 <= n * each <= 11 * n
    ensures -11 <= each <= 0 ==> -11 * n <= n * each <= 0
    ensures n * each == 0 <==> n == 0 || each == 0
  {
    if 0 <= each <= 11 {
      assert n * (11 - each) >= 0;
    }
    if -11 <= each <= 0 {
      assert n * (each + 11) >= 0;
    }
  }
}
