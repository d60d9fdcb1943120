/** The sponsor bot's money: what pods have cost by a moment, what they cost an hour, and the budget rule. */
module BotMoney {
  import opened Ranges

  datatype PodState = WaitingSsh | Booting | Idle | Working | Terminated

  /** One block given to a pod, and its row in the work log. */
  datatype Assignment = Assignment(sid: Option<nat>, height: int, row: nat)

  datatype Pod = Pod(cost: real, created: real, terminated: Option<real>, state: PodState,
                     tasks: seq<Assignment>, segmentStart: Option<real>, lastProgress: real, finishedSince: Option<real>)
  {
    predicate Live() {
      terminated.None?
    }

    /** An unknown price counts as the ceiling. */
    function Rate(ceiling: real): real {
      if cost > 0.0 then cost else ceiling
    }

    /** When its log's current segment began: at the hand-over of its latest work or the latest block that landed,
        or, before any, when it was created. */
    function Since(): real {
      if segmentStart.Some? then segmentStart.value else created
    }

    function LiveRate(ceiling: real): real {
      if Live() then Rate(ceiling) else 0.0
    }

    function Seconds(at: real): real {
      var end := if terminated.Some? then terminated.value else at;
      if end > created then end - created else 0.0
    }

    function Spend(at: real, ceiling: real): real {
      Rate(ceiling) * Seconds(at) / 3600.0
    }
  }

  datatype Limits = Limits(maxPods: int, maxUsd: real, maxUsdPerHour: real, ceiling: real, lead: real,
                           stall: real, sshTimeout: real, bootTimeout: real, failGrace: real,
                           blocksPerPod: nat, capacityBackoff: real)

  /** What the constructor refuses to start without. */
  predicate Accepted(l: Limits) {
    && l.maxPods > 0 && l.maxUsd > 0.0 && l.maxUsdPerHour > 0.0
    && 0.0 < l.ceiling <= l.maxUsdPerHour
    && l.blocksPerPod >= 1 && l.lead >= 0.0
  }

  function Sum(xs: seq<real>): real {
    if xs == [] then 0.0 else Sum(xs[..|xs|-1]) + xs[|xs|-1]
  }

  function Spends(pods: seq<Pod>, at: real, ceiling: real): seq<real> {
    seq(|pods|, i requires 0 <= i < |pods| => pods[i].Spend(at, ceiling))
  }

  function Rates(pods: seq<Pod>, ceiling: real): seq<real> {
    seq(|pods|, i requires 0 <= i < |pods| => pods[i].LiveRate(ceiling))
  }

  function Spend(pods: seq<Pod>, at: real, ceiling: real): real {
    Sum(Spends(pods, at, ceiling))
  }

  function Hourly(pods: seq<Pod>, ceiling: real): real {
    Sum(Rates(pods, ceiling))
  }

  function LiveCount(pods: seq<Pod>): nat {
    if pods == [] then 0
    else LiveCount(pods[..|pods|-1]) + (if pods[|pods|-1].Live() then 1 else 0)
  }

  function OverBudget(l: Limits, pods: seq<Pod>, now: real): bool {
    Spend(pods, now, l.ceiling) + Hourly(pods, l.ceiling) * (l.lead / 3600.0) >= l.maxUsd
  }

  /** The three tests a deploy has to pass. */
  predicate MayDeploy(l: Limits, pods: seq<Pod>, now: real) {
    && LiveCount(pods) < l.maxPods
    && Hourly(pods, l.ceiling) + l.ceiling <= l.maxUsdPerHour + 0.000000001
    && Spend(pods, now, l.ceiling) + (Hourly(pods, l.ceiling) + l.ceiling) * (l.lead / 3600.0) < l.maxUsd
  }

  /** No pod is priced over the ceiling. */
  predicate PricedIn(l: Limits, pods: seq<Pod>) {
    forall i :: 0 <= i < |pods| ==> pods[i].cost <= l.ceiling
  }

  // ---------- how the sums move ----------

  lemma MulOrder(r: real, a: real, b: real)
    requires r >= 0.0 && a <= b
    ensures r * a / 3600.0 <= r * b / 3600.0
  {
  }

  /** Between two moments a pod adds at most its hourly rate for that long, and nothing once terminated. */
  lemma PodSpendGrows(p: Pod, t: real, u: real, ceiling: real)
    requires t <= u && ceiling > 0.0
    ensures p.Spend(t, ceiling) <= p.Spend(u, ceiling)
    ensures p.Spend(u, ceiling) <= p.Spend(t, ceiling) + p.LiveRate(ceiling) * ((u - t) / 3600.0)
  {
    var r := p.Rate(ceiling);
    MulOrder(r, p.Seconds(t), p.Seconds(u));
    if p.Live() {
      MulOrder(r, p.Seconds(u), p.Seconds(t) + (u - t));
      assert r * (p.Seconds(t) + (u - t)) == r * p.Seconds(t) + r * (u - t);
    }
  }

  lemma {:induction false} SumOrder(xs: seq<real>, ys: seq<real>)
    requires |xs| == |ys| && forall i :: 0 <= i < |xs| ==> xs[i] <= ys[i]
    ensures Sum(xs) <= Sum(ys)
  {
    if xs != [] {
      SumOrder(xs[..|xs|-1], ys[..|ys|-1]);
    }
  }

  predicate GrowsAtMost(x: real, y: real, r: real, d: real) {
    y <= x + r * d
  }

  /** Each y grows on its x by at most d times its rate. */
  lemma {:induction false} SumGrows(xs: seq<real>, ys: seq<real>, rs: seq<real>, d: real)
    requires |xs| == |ys| == |rs| && forall i :: 0 <= i < |xs| ==> GrowsAtMost(xs[i], ys[i], rs[i], d)
    ensures GrowsAtMost(Sum(xs), Sum(ys), Sum(rs), d)
  {
    if xs != [] {
      var n := |xs| - 1;
      SumGrows(xs[..n], ys[..n], rs[..n], d);
      assert GrowsAtMost(xs[n], ys[n], rs[n], d);
      Distribute(Sum(rs[..n]), rs[n], d);
    }
  }

  lemma Distribute(a: real, b: real, d: real)
    ensures (a + b) * d == a * d + b * d
  {
  }

  lemma SpendNeverFalls(pods: seq<Pod>, t: real, u: real, ceiling: real)
    requires t <= u && ceiling > 0.0
    ensures Spend(pods, t, ceiling) <= Spend(pods, u, ceiling)
  {
    forall i | 0 <= i < |pods| ensures pods[i].Spend(t, ceiling) <= pods[i].Spend(u, ceiling) {
      PodSpendGrows(pods[i], t, u, ceiling);
    }
    SumOrder(Spends(pods, t, ceiling), Spends(pods, u, ceiling));
  }

  lemma SpendGrows(pods: seq<Pod>, t: real, u: real, ceiling: real)
    requires t <= u && ceiling > 0.0
    ensures Spend(pods, u, ceiling) <= Spend(pods, t, ceiling) + Hourly(pods, ceiling) * ((u - t) / 3600.0)
  {
    SpendGrowsBy(pods, t, u, ceiling, (u - t) / 3600.0);
  }

  lemma SpendGrowsBy(pods: seq<Pod>, t: real, u: real, ceiling: real, d: real)
    requires t <= u && ceiling > 0.0 && d == (u - t) / 3600.0
    ensures Spend(pods, u, ceiling) <= Spend(pods, t, ceiling) + Hourly(pods, ceiling) * d
  {
    forall i | 0 <= i < |pods|
      ensures GrowsAtMost(Spends(pods, t, ceiling)[i], Spends(pods, u, ceiling)[i], Rates(pods, ceiling)[i], d)
    {
      PodSpendGrows(pods[i], t, u, ceiling);
    }
    SumGrows(Spends(pods, t, ceiling), Spends(pods, u, ceiling), Rates(pods, ceiling), d);
  }

  /** p' costs no more than p, at any moment from t on. */
  predicate NoDearer(p: Pod, p': Pod, t: real, ceiling: real) {
    && p'.cost == p.cost && p'.created == p.created
    && (p'.terminated == p.terminated || (p.Live() && p'.terminated.Some? && p'.terminated.value <= t))
  }

  lemma SpendsNoMore(p: Pod, p': Pod, t: real, ceiling: real)
    requires NoDearer(p, p', t, ceiling) && ceiling > 0.0
    ensures p'.Spend(t, ceiling) <= p.Spend(t, ceiling) && p'.LiveRate(ceiling) <= p.LiveRate(ceiling)
  {
    assert p'.Rate(ceiling) == p.Rate(ceiling) && p'.Seconds(t) <= p.Seconds(t);
    MulOrder(p.Rate(ceiling), p'.Seconds(t), p.Seconds(t));
  }

  lemma UpdateIsNoDearer(pods: seq<Pod>, i: nat, p': Pod, t: real, ceiling: real)
    requires i < |pods| && NoDearer(pods[i], p', t, ceiling) && ceiling > 0.0
    ensures Spend(pods[i := p'], t, ceiling) <= Spend(pods, t, ceiling)
    ensures Hourly(pods[i := p'], ceiling) <= Hourly(pods, ceiling)
    ensures LiveCount(pods[i := p']) <= LiveCount(pods)
  {
    var pods' := pods[i := p'];
    SpendsNoMore(pods[i], p', t, ceiling);
    SumOrder(Spends(pods', t, ceiling), Spends(pods, t, ceiling));
    SumOrder(Rates(pods', ceiling), Rates(pods, ceiling));
    LiveCountUpdate(pods, i, p');
  }

  lemma {:induction false} LiveCountUpdate(pods: seq<Pod>, i: nat, p': Pod)
    requires i < |pods| && (p'.Live() ==> pods[i].Live())
    ensures LiveCount(pods[i := p']) <= LiveCount(pods)
  {
    if i < |pods| - 1 {
      assert pods[i := p'][..|pods|-1] == pods[..|pods|-1][i := p'];
      LiveCountUpdate(pods[..|pods|-1], i, p');
    } else {
      assert pods[i := p'][..|pods|-1] == pods[..|pods|-1];
    }
  }

  // ---------- the budget ----------

  /** Were every live pod to run until the deadline, the cap would still hold. */
  predicate Covered(l: Limits, pods: seq<Pod>, deadline: real) {
    Spend(pods, deadline, l.ceiling) < l.maxUsd
  }

  /** The pod cap holds; as long as no pod has been priced over the ceiling, so does the hourly cap; and, as long as
      the clock has not passed the deadline, the budget holds up to the deadline. */
  predicate WithinBudget(l: Limits, pods: seq<Pod>, last: real, deadline: real) {
    && LiveCount(pods) <= l.maxPods
    && (PricedIn(l, pods) ==> Hourly(pods, l.ceiling) <= l.maxUsdPerHour + 0.000000001)
    && (PricedIn(l, pods) && last <= deadline ==> Covered(l, pods, deadline))
  }

  /** A change that only ends a pod keeps all of it. */
  lemma UpdateKeepsBudget(l: Limits, pods: seq<Pod>, last: real, deadline: real, i: nat, p': Pod)
    requires Accepted(l) && WithinBudget(l, pods, last, deadline) && i < |pods| && NoDearer(pods[i], p', last, l.ceiling)
    ensures WithinBudget(l, pods[i := p'], last, deadline)
  {
    UpdateIsNoDearer(pods, i, p', if last <= deadline then deadline else last, l.ceiling);
    if PricedIn(l, pods[i := p']) {
      forall k | 0 <= k < |pods| ensures pods[k].cost <= l.ceiling {
        assert pods[i := p'][k].cost <= l.ceiling;
      }
    }
  }

  /** A passed check covers the whole lead time that follows it. */
  lemma {:induction false} CheckCovers(l: Limits, pods: seq<Pod>, now: real)
    requires Accepted(l) && !OverBudget(l, pods, now)
    ensures Covered(l, pods, now + l.lead)
  {
    SpendGrows(pods, now, now + l.lead, l.ceiling);
  }

  /** A deploy that passed its tests leaves the lead time covered, the hourly cap and the pod cap met. */
  lemma {:induction false} DeployIsCovered(l: Limits, pods: seq<Pod>, now: real, p: Pod)
    requires Accepted(l) && MayDeploy(l, pods, now)
    requires p.cost <= l.ceiling && p.Live() && now <= p.created
    ensures Covered(l, pods + [p], now + l.lead)
    ensures Hourly(pods + [p], l.ceiling) <= l.maxUsdPerHour + 0.000000001
    ensures LiveCount(pods + [p]) <= l.maxPods
  {
    hide Spend, Hourly, LiveCount;
    var c := l.ceiling;
    SpendGrows(pods, now, now + l.lead, c);
    PodLeadCost(p, now, l);
    Distribute(Hourly(pods, c), c, l.lead / 3600.0);
    SumsWith(pods, p, now + l.lead, c);
  }

  lemma SumAppend(xs: seq<real>, x: real)
    ensures Sum(xs + [x]) == Sum(xs) + x
  {
    assert (xs + [x])[..|xs|] == xs;
  }

  lemma SumsWith(pods: seq<Pod>, p: Pod, at: real, ceiling: real)
    ensures Spend(pods + [p], at, ceiling) == Spend(pods, at, ceiling) + p.Spend(at, ceiling)
    ensures Hourly(pods + [p], ceiling) == Hourly(pods, ceiling) + p.LiveRate(ceiling)
    ensures LiveCount(pods + [p]) == LiveCount(pods) + if p.Live() then 1 else 0
  {
    assert (pods + [p])[..|pods|] == pods;
    assert Spends(pods + [p], at, ceiling) == Spends(pods, at, ceiling) + [p.Spend(at, ceiling)];
    assert Rates(pods + [p], ceiling) == Rates(pods, ceiling) + [p.LiveRate(ceiling)];
    SumAppend(Spends(pods, at, ceiling), p.Spend(at, ceiling));
    SumAppend(Rates(pods, ceiling), p.LiveRate(ceiling));
  }

  lemma CheckKeepsBudget(l: Limits, pods: seq<Pod>, last: real, deadline: real, now: real)
    requires Accepted(l) && WithinBudget(l, pods, last, deadline) && !OverBudget(l, pods, now)
    ensures WithinBudget(l, pods, last, now + l.lead)
  {
    CheckCovers(l, pods, now);
  }

  lemma DeployKeepsBudget(l: Limits, pods: seq<Pod>, now: real, p: Pod, last: real)
    requires Accepted(l) && MayDeploy(l, pods, now) && p.Live() && now <= p.created
    ensures WithinBudget(l, pods + [p], last, now + l.lead)
  {
    SumsWith(pods, p, now + l.lead, l.ceiling);
    if PricedIn(l, pods + [p]) {
      assert (pods + [p])[|pods|] == p;
      DeployIsCovered(l, pods, now, p);
    }
  }

  lemma PodLeadCost(p: Pod, now: real, l: Limits)
    requires Accepted(l) && p.cost <= l.ceiling && p.Live() && now <= p.created
    ensures p.Spend(now + l.lead, l.ceiling) <= l.ceiling * (l.lead / 3600.0)
  {
    MulOrder(p.Rate(l.ceiling), p.Seconds(now + l.lead), l.lead);
    assert p.Rate(l.ceiling) <= l.ceiling;
    assert p.Rate(l.ceiling) * l.lead <= l.ceiling * l.lead;
  }

  const SMALL := Limits(1, 1.0, 20.0, 18.0, 180.0, 0.0, 0.0, 0.0, 0.0, 1, 0.0)
  const LONE := Pod(18.0, 0.0, None, WaitingSsh, [], None, 0.0, None)
  const STOPPED := LONE.(terminated := Some(360.0), state := Terminated)

  /** The lead has to last to the end of the stop: a pod deployed at 0, a check passed at 0, the next check failed
      one lead later and the stop finished one lead after that, and the cap is passed. */
  lemma LeadMustOutlastTheStop()
    ensures Accepted(SMALL) && PricedIn(SMALL, [LONE]) && MayDeploy(SMALL, [], 0.0)
    ensures !OverBudget(SMALL, [LONE], 0.0) && OverBudget(SMALL, [LONE], SMALL.lead)
    ensures Spend([STOPPED], 2.0 * SMALL.lead, SMALL.ceiling) > SMALL.maxUsd
  {
    OnePod(LONE, 0.0, 18.0);
    OnePod(LONE, 180.0, 18.0);
    OnePod(STOPPED, 360.0, 18.0);
  }

  /** A fleet inside every limit, no pod of it over the ceiling, whose check passes at `now`. */
  predicate Passes(l: Limits, pods: seq<Pod>, now: real) {
    && PricedIn(l, pods) && LiveCount(pods) <= l.maxPods && Hourly(pods, l.ceiling) <= l.maxUsdPerHour + 0.000000001
    && !OverBudget(l, pods, now)
  }

  /** The spend stays below the cap for the lead time and d more seconds after every passed check. */
  ghost predicate HoldsBeyondLead(l: Limits, d: real) {
    forall pods: seq<Pod>, now: real :: Passes(l, pods, now) ==> Spend(pods, now + l.lead + d, l.ceiling) < l.maxUsd
  }

  /** A pod at the ceiling, rented through the deploy tests, that reaches the cap d seconds after the lead of a check
      that passed. It runs for the time the cap pays for, or from the check on when that is shorter. */
  lemma OverrunPassesTheCap(l: Limits, d: real) returns (p: Pod, now: real)
    requires Accepted(l) && d > 0.0 && MayDeploy(l, [], 0.0)
    ensures p.Live() && p.cost == l.ceiling && p.created <= now && MayDeploy(l, [], p.created)
    ensures Passes(l, [p], now) && Spend([p], now + l.lead + d, l.ceiling) >= l.maxUsd
  {
    var c, hours := l.ceiling, (l.lead + d) / 3600.0;
    var paid := 3600.0 * l.maxUsd / c;
    assert c * paid == 3600.0 * l.maxUsd;
    p := Pod(c, 0.0, None, WaitingSsh, [], None, 0.0, None);
    now := if paid > l.lead + d then paid - l.lead - d else 0.0;
    OnePod(p, now, c);
    OnePod(p, now + l.lead + d, c);
    CheckOfOnePod(l, d, paid, now);
  }

  lemma CheckOfOnePod(l: Limits, d: real, paid: real, now: real)
    requires l.ceiling > 0.0 && l.lead >= 0.0 && d > 0.0 && l.ceiling * paid == 3600.0 * l.maxUsd
    requires l.ceiling * (l.lead / 3600.0) < l.maxUsd
    requires now == if paid > l.lead + d then paid - l.lead - d else 0.0
    ensures l.ceiling * now / 3600.0 + l.ceiling * (l.lead / 3600.0) < l.maxUsd
    ensures l.ceiling * (now + l.lead + d) / 3600.0 >= l.maxUsd
  {
    var c := l.ceiling;
    if paid > l.lead + d {
      assert c * (now + l.lead) == c * (paid - d) == c * paid - c * d;
      assert c * d > 0.0;
      assert c * (now + l.lead) == c * now + c * l.lead;
    } else {
      assert c * (l.lead + d) >= c * paid;
    }
  }

  /** The lead time is exact: a passed check covers d more seconds if and only if d is not positive. (When not even a
      first pod passes the deploy tests, nothing is ever rented.) */
  lemma LeadIsExact(l: Limits, d: real)
    requires Accepted(l) && MayDeploy(l, [], 0.0)
    ensures HoldsBeyondLead(l, d) <==> d <= 0.0
  {
    if d > 0.0 {
      var p, now := OverrunPassesTheCap(l, d);
      assert Passes(l, [p], now);
    } else {
      forall pods: seq<Pod>, now: real | Passes(l, pods, now)
        ensures Spend(pods, now + l.lead + d, l.ceiling) < l.maxUsd
      {
        CheckCovers(l, pods, now);
        SpendNeverFalls(pods, now + l.lead + d, now + l.lead, l.ceiling);
      }
    }
  }

  /** When a first pod fails the deploy tests at one moment, it fails them at every moment. */
  lemma NothingIsEverRented(l: Limits, t: real, u: real)
    requires !MayDeploy(l, [], t)
    ensures !MayDeploy(l, [], u)
  {
  }

  lemma OnePod(p: Pod, at: real, ceiling: real)
    ensures Spend([p], at, ceiling) == p.Spend(at, ceiling)
    ensures Hourly([p], ceiling) == p.LiveRate(ceiling)
  {
    assert [] + [p] == [p];
    SumsWith([], p, at, ceiling);
  }

  // ---------- the estimate against the bill ----------

  /** The prices RunPod really charges: as reported, and at most the ceiling where none was reported. */
  ghost predicate Charged(pods: seq<Pod>, prices: seq<real>, ceiling: real) {
    && |prices| == |pods|
    && forall i :: 0 <= i < |pods| ==>
         if pods[i].cost > 0.0 then prices[i] == pods[i].cost else 0.0 <= prices[i] <= ceiling
  }

  /** The bill at a moment: each pod's price for its wall time, in hours. */
  function Bill(pods: seq<Pod>, prices: seq<real>, at: real): real
    requires |prices| == |pods|
  {
    if pods == [] then 0.0 else PodBill(pods[0], prices[0], at) + Bill(pods[1..], prices[1..], at)
  }

  function PodBill(p: Pod, price: real, at: real): real {
    var wall := (match p.terminated case Some(t) => t case None => at) - p.created;
    price * (if wall > 0.0 then wall else 0.0) / 3600.0
  }

  /** The bill of one more hour of the pods that are running. */
  function HourlyBill(pods: seq<Pod>, prices: seq<real>): real
    requires |prices| == |pods|
  {
    if pods == [] then 0.0
    else (if pods[0].terminated == None then prices[0] else 0.0) + HourlyBill(pods[1..], prices[1..])
  }

  lemma {:induction false} SumPrepend(x: real, xs: seq<real>)
    ensures Sum([x] + xs) == x + Sum(xs)
  {
    if xs == [] {
      assert [x] + xs == [x];
      assert [x][..0] == [];
    } else {
      assert ([x] + xs)[..|xs|] == [x] + xs[..|xs|-1];
      SumPrepend(x, xs[..|xs|-1]);
    }
  }

  lemma SplitFirst(pods: seq<Pod>, at: real, ceiling: real)
    requires pods != []
    ensures Spend(pods, at, ceiling) == pods[0].Spend(at, ceiling) + Spend(pods[1..], at, ceiling)
    ensures Hourly(pods, ceiling) == pods[0].LiveRate(ceiling) + Hourly(pods[1..], ceiling)
  {
    assert Spends(pods, at, ceiling) == [pods[0].Spend(at, ceiling)] + Spends(pods[1..], at, ceiling);
    assert Rates(pods, ceiling) == [pods[0].LiveRate(ceiling)] + Rates(pods[1..], ceiling);
    SumPrepend(pods[0].Spend(at, ceiling), Spends(pods[1..], at, ceiling));
    SumPrepend(pods[0].LiveRate(ceiling), Rates(pods[1..], ceiling));
  }

  /** The estimates are never below the bill, and are the bill where every price was reported. */
  lemma {:induction false} EstimateCoversBill(pods: seq<Pod>, prices: seq<real>, at: real, ceiling: real)
    requires Charged(pods, prices, ceiling) && ceiling > 0.0
    ensures Bill(pods, prices, at) <= Spend(pods, at, ceiling)
    ensures HourlyBill(pods, prices) <= Hourly(pods, ceiling)
    ensures (forall i :: 0 <= i < |pods| ==> pods[i].cost > 0.0 || prices[i] == ceiling) ==>
              Bill(pods, prices, at) == Spend(pods, at, ceiling) && HourlyBill(pods, prices) == Hourly(pods, ceiling)
  {
    if pods != [] {
      hide Spend, Hourly, PodBill;
      EstimateCoversBill(pods[1..], prices[1..], at, ceiling);
      SplitFirst(pods, at, ceiling);
      PodBillCovered(pods[0], prices[0], at, ceiling);
    }
  }

  lemma PodBillCovered(p: Pod, price: real, at: real, ceiling: real)
    requires (if p.cost > 0.0 then price == p.cost else 0.0 <= price <= ceiling) && ceiling > 0.0
    ensures PodBill(p, price, at) <= p.Spend(at, ceiling)
    ensures p.cost > 0.0 || price == ceiling ==> PodBill(p, price, at) == p.Spend(at, ceiling)
    ensures var running := if p.terminated == None then price else 0.0;
            running <= p.LiveRate(ceiling) && (p.cost > 0.0 || price == ceiling ==> running == p.LiveRate(ceiling))
  {
    var seconds, rate := p.Seconds(at), p.Rate(ceiling);
    assert price <= rate;
    assert (rate - price) * seconds >= 0.0;
    assert rate * seconds == price * seconds + (rate - price) * seconds;
  }

  function LiveIndices(pods: seq<Pod>): set<nat> {
    set i: nat | i < |pods| && pods[i].terminated == None
  }

  lemma {:induction false} LiveCountIs(pods: seq<Pod>)
    ensures LiveCount(pods) == |LiveIndices(pods)|
  {
    if pods == [] {
      assert LiveIndices(pods) == {};
    } else {
      var n := |pods| - 1;
      LiveCountIs(pods[..n]);
      assert LiveIndices(pods) == LiveIndices(pods[..n]) + (if pods[n].terminated == None then {n} else {});
    }
  }

  /** The deploy tests are exact: one more pod at the ceiling is let in if and only if, with it, the pod cap and the
      hourly cap hold and the budget check still passes. */
  lemma DeployTestsAreExact(l: Limits, pods: seq<Pod>, now: real, p: Pod)
    requires Accepted(l) && p.cost == l.ceiling && p.terminated == None && p.created == now
    ensures MayDeploy(l, pods, now) <==>
              && |LiveIndices(pods + [p])| <= l.maxPods
              && Hourly(pods + [p], l.ceiling) <= l.maxUsdPerHour + 0.000000001
              && Spend(pods + [p], now, l.ceiling) + Hourly(pods + [p], l.ceiling) * l.lead / 3600.0 < l.maxUsd
  {
    hide Spend, Hourly, LiveCount;
    LiveCountIs(pods + [p]);
    SumsWith(pods, p, now, l.ceiling);
    assert p.Spend(now, l.ceiling) == 0.0;
    var h := Hourly(pods, l.ceiling) + l.ceiling;
    assert h * (l.lead / 3600.0) == h * l.lead / 3600.0;
  }

  /** The budget check is exact: it fails if and only if the running pods would reach the cap by the end of the lead
      time. */
  lemma CheckIsExact(l: Limits, pods: seq<Pod>, now: real)
    requires Accepted(l) && forall i :: 0 <= i < |pods| ==> pods[i].created <= now
    ensures OverBudget(l, pods, now) <==> Spend(pods, now + l.lead, l.ceiling) >= l.maxUsd
  {
    SpendGrowsExactly(pods, now, now + l.lead, l.ceiling, l.lead / 3600.0);
  }

  predicate GrowsBy(x: real, y: real, r: real, d: real) {
    y == x + r * d
  }

  lemma GrowsBySum(x: real, y: real, r: real, x': real, y': real, r': real, d: real)
    requires GrowsBy(x, y, r, d) && GrowsBy(x', y', r', d)
    ensures GrowsBy(x + x', y + y', r + r', d)
  {
    Distribute(r, r', d);
  }

  /** Pods already created add exactly their hourly rate. */
  lemma {:induction false} SpendGrowsExactly(pods: seq<Pod>, t: real, u: real, ceiling: real, d: real)
    requires t <= u && ceiling > 0.0 && d == (u - t) / 3600.0 && forall i :: 0 <= i < |pods| ==> pods[i].created <= t
    ensures GrowsBy(Spend(pods, t, ceiling), Spend(pods, u, ceiling), Hourly(pods, ceiling), d)
  {
    if pods != [] {
      hide Spend, Hourly, GrowsBy;
      SpendGrowsExactly(pods[1..], t, u, ceiling, d);
      SplitFirst(pods, t, ceiling);
      SplitFirst(pods, u, ceiling);
      PodGrowsExactly(pods[0], t, u, ceiling, d);
      GrowsBySum(pods[0].Spend(t, ceiling), pods[0].Spend(u, ceiling), pods[0].LiveRate(ceiling),
                 Spend(pods[1..], t, ceiling), Spend(pods[1..], u, ceiling), Hourly(pods[1..], ceiling), d);
    } else {
      assert Spends(pods, u, ceiling) == [] == Spends(pods, t, ceiling) == Rates(pods, ceiling);
    }
  }

  lemma PodGrowsExactly(p: Pod, t: real, u: real, ceiling: real, d: real)
    requires t <= u && ceiling > 0.0 && p.created <= t && d == (u - t) / 3600.0
    ensures GrowsBy(p.Spend(t, ceiling), p.Spend(u, ceiling), p.LiveRate(ceiling), d)
  {
    var r := p.Rate(ceiling);
    if p.terminated == None {
      assert p.Seconds(u) == p.Seconds(t) + (u - t);
      assert r * (p.Seconds(t) + (u - t)) == r * p.Seconds(t) + r * (u - t);
    }
  }
}
