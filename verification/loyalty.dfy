/** `LoyaltyProjector`: a per-account score that integrates the balance over
    the time between consecutive events, and a membership tier chosen from
    the average balance since the account's first event. */
module Loyalty {
  import opened Common
  import opened Contracts

  datatype Tier = Standard | Gold | Platinum

  /** A `LoyaltyView` row. `first` and `last` are the first and the most
      recent event times. */
  datatype LoyaltyView = LoyaltyView(balance: real, score: real, first: Ticks, last: Ticks, tier: Tier)

  /** The `LoyaltyScores` table, keyed by account id. */
  type LoyaltyViews = map<Guid, LoyaltyView>

  /** Averages strictly above these reach Platinum and Gold. */
  const PlatinumAverage: real := 5000.0
  const GoldAverage: real := 1000.0

  /** Tiers ordered from lowest to highest. */
  function Rank(t: Tier): int
  {
    match t
    case Standard => 0
    case Gold => 1
    case Platinum => 2
  }

  /** The tier for an average balance; both thresholds are strict. */
  function TierFor(average: real): (t: Tier)
  {
    if average > PlatinumAverage then Platinum
    else if average > GoldAverage then Gold
    else Standard
  }

  /** Each tier is reached by exactly the averages above its threshold and
      not above the next one. */
  lemma TierBands(average: real)
    ensures TierFor(average) == Platinum <==> average > 5000.0
    ensures TierFor(average) == Gold <==> 1000.0 < average <= 5000.0
    ensures TierFor(average) == Standard <==> average <= 1000.0
  {
  }

  /** A higher average never gives a lower tier. */
  lemma TierMonotone(a: real, b: real)
    requires a <= b
    ensures Rank(TierFor(a)) <= Rank(TierFor(b))
  {
  }

  /** The row created for an account's first event at time `t`. */
  function Opened(t: Ticks): LoyaltyView
  {
    LoyaltyView(0.0, 0.0, t, t, Standard)
  }

  /** The view an event for `id` at time `t` starts from. */
  function Current(views: LoyaltyViews, id: Guid, t: Ticks): LoyaltyView
  {
    if id in views then views[id] else Opened(t)
  }

  /** `UpdateLoyaltyScoreAsync(accountId, amountDelta, eventTime)`: accrue the
      balance over the days since the last event (only when time moved
      forward), apply the delta, move `last` to the event time, and re-tier
      on the average since the first event when that span is positive. */
  function UpdateLoyaltyScore(views: LoyaltyViews, id: Guid, delta: real, t: Ticks): (r: LoyaltyViews)
    ensures OnlyKeyChanged(views, r, id)
    ensures id in r
    ensures var v := Current(views, id, t);
            && r[id].balance == v.balance + delta
            && r[id].first == v.first
            && r[id].last == t
            && (t > v.last ==> r[id].score == v.score + v.balance * TotalDays(t - v.last))
            && (t <= v.last ==> r[id].score == v.score)
            && (t > v.first ==> r[id].tier == TierFor(r[id].score / TotalDays(t - v.first)))
            && (t <= v.first ==> r[id].tier == v.tier)
  {
    var v := Current(views, id, t);
    var elapsed := TotalDays(t - v.last);
    var score := if elapsed > 0.0 then v.score + v.balance * elapsed else v.score;
    var active := TotalDays(t - v.first);
    var tier := if active > 0.0 then TierFor(score / active) else v.tier;
    views[id := LoyaltyView(v.balance + delta, score, v.first, t, tier)]
  }

  /** `ProjectAsync`: deposits add their amount, withdrawals subtract it. */
  function ProjectLoyalty(views: LoyaltyViews, e: FundsEvent): (r: LoyaltyViews)
    ensures OnlyKeyChanged(views, r, e.accountId)
    ensures e.accountId in r
    ensures e.FundsDeposited? ==>
              r[e.accountId].balance == Current(views, e.accountId, e.occurredOn).balance + e.amount
    ensures e.FundsWithdrawn? ==>
              r[e.accountId].balance == Current(views, e.accountId, e.occurredOn).balance - e.amount
  {
    UpdateLoyaltyScore(views, e.accountId, Delta(e), e.occurredOn)
  }

  /** The events consumed in order. */
  function ProjectLoyaltyAll(views: LoyaltyViews, es: seq<FundsEvent>): LoyaltyViews
    decreases |es|
  {
    if es == [] then views else ProjectLoyaltyAll(ProjectLoyalty(views, es[0]), es[1..])
  }

  /** The first event of an account opens a view that has scored nothing, is
      Standard, and starts and ends at the event's time. */
  lemma FirstEventScoresNothing(views: LoyaltyViews, e: FundsEvent)
    requires e.accountId !in views
    ensures var v := ProjectLoyalty(views, e)[e.accountId];
            v == LoyaltyView(Delta(e), 0.0, e.occurredOn, e.occurredOn, Standard)
  {
  }

  /** While the balance is not negative, the score never goes down. */
  lemma ScoreNeverDecreases(views: LoyaltyViews, id: Guid, delta: real, t: Ticks)
    requires Current(views, id, t).balance >= 0.0
    ensures UpdateLoyaltyScore(views, id, delta, t)[id].score >= Current(views, id, t).score
  {
    var v := Current(views, id, t);
    if t > v.last {
      assert TotalDays(t - v.last) > 0.0;
    }
  }

  /** An event older than the last one accrues nothing, yet still moves the
      last-event time backwards. */
  lemma LateEventMovesLastBack(views: LoyaltyViews, e: FundsEvent)
    requires e.accountId in views && e.occurredOn < views[e.accountId].last
    ensures ProjectLoyalty(views, e)[e.accountId].score == views[e.accountId].score
    ensures ProjectLoyalty(views, e)[e.accountId].last < views[e.accountId].last
  {
  }

  /** Event times that never go back, starting from `last`. */
  predicate InOrderFrom(last: Ticks, es: seq<FundsEvent>)
    decreases |es|
  {
    es == [] || (last <= es[0].occurredOn && InOrderFrom(es[0].occurredOn, es[1..]))
  }

  /** Reference definition of the score: the running balance, starting at
      `balance` at time `last`, integrated over the days up to each event. */
  function Accrued(balance: real, last: Ticks, es: seq<FundsEvent>): real
    decreases |es|
  {
    if es == [] then 0.0
    else balance * TotalDays(es[0].occurredOn - last) + Accrued(balance + Delta(es[0]), es[0].occurredOn, es[1..])
  }

  /** The time of the last event of a non-empty run, or `last` for none. */
  function LastTime(last: Ticks, es: seq<FundsEvent>): Ticks
    decreases |es|
  {
    if es == [] then last else LastTime(es[0].occurredOn, es[1..])
  }

  /** One in-order event of an existing account accrues the balance over the
      elapsed days and moves the balance by the event's delta. */
  lemma InOrderStep(views: LoyaltyViews, e: FundsEvent)
    requires e.accountId in views && views[e.accountId].last <= e.occurredOn
    ensures var v := views[e.accountId];
            var w := ProjectLoyalty(views, e)[e.accountId];
            && w.score == v.score + v.balance * TotalDays(e.occurredOn - v.last)
            && w.balance == v.balance + Delta(e)
            && w.first == v.first
            && w.last == e.occurredOn
  {
    var v := views[e.accountId];
    if e.occurredOn == v.last {
      assert TotalDays(e.occurredOn - v.last) == 0.0;
    }
  }

  /** On events of one account in time order, the projected score is exactly
      the time-weighted integral of the balance, the balance moves by the net
      amount, and the first-event time never changes. */
  lemma {:induction false} ScoreIsTimeWeightedBalance(views: LoyaltyViews, es: seq<FundsEvent>, id: Guid)
    requires id in views
    requires AllFor(es, id)
    requires InOrderFrom(views[id].last, es)
    ensures var v := views[id];
            var r := ProjectLoyaltyAll(views, es);
            && id in r
            && r[id].score == v.score + Accrued(v.balance, v.last, es)
            && r[id].balance == v.balance + NetAmount(es)
            && r[id].first == v.first
            && r[id].last == LastTime(v.last, es)
    decreases |es|
  {
    if es != [] {
      var v := views[id];
      var next := ProjectLoyalty(views, es[0]);
      InOrderStep(views, es[0]);
      assert AllFor(es[1..], id);
      ScoreIsTimeWeightedBalance(next, es[1..], id);
    }
  }

  /** From an account's first event on, in time order, the score is the
      integral of the balance since that event. */
  lemma ScoreFromFirstEvent(views: LoyaltyViews, es: seq<FundsEvent>, id: Guid)
    requires id !in views
    requires |es| > 0 && AllFor(es, id)
    requires InOrderFrom(es[0].occurredOn, es[1..])
    ensures var r := ProjectLoyaltyAll(views, es);
            && id in r
            && r[id].score == Accrued(Delta(es[0]), es[0].occurredOn, es[1..])
            && r[id].balance == NetAmount(es)
            && r[id].first == es[0].occurredOn
  {
    var next := ProjectLoyalty(views, es[0]);
    FirstEventScoresNothing(views, es[0]);
    assert AllFor(es[1..], id);
    ScoreIsTimeWeightedBalance(next, es[1..], id);
  }

  /** Deposits of non-negative amounts, at any times, never lower the score
      or the balance. */
  lemma {:induction false} DepositsOnlyNeverLowerScore(views: LoyaltyViews, es: seq<FundsEvent>, id: Guid)
    requires id in views && views[id].balance >= 0.0
    requires AllFor(es, id)
    requires forall i :: 0 <= i < |es| ==> es[i].FundsDeposited? && es[i].amount >= 0.0
    ensures var r := ProjectLoyaltyAll(views, es);
            && id in r
            && r[id].score >= views[id].score
            && r[id].balance >= views[id].balance
    decreases |es|
  {
    if es != [] {
      var next := ProjectLoyalty(views, es[0]);
      ScoreNeverDecreases(views, id, Delta(es[0]), es[0].occurredOn);
      assert AllFor(es[1..], id);
      DepositsOnlyNeverLowerScore(next, es[1..], id);
    }
  }

  /** The tier is always the one the latest event chose: after a run of an
      account's events whose last one is later than the first-event time,
      the tier is the one for the final score averaged over the days since
      the first event, whatever the order of the earlier events. */
  lemma {:induction false} TierFollowsAverage(views: LoyaltyViews, es: seq<FundsEvent>, id: Guid)
    requires AllFor(es, id)
    requires |es| > 0
    requires es[|es| - 1].occurredOn > Current(views, id, es[0].occurredOn).first
    ensures var r := ProjectLoyaltyAll(views, es);
            var first := Current(views, id, es[0].occurredOn).first;
            && id in r
            && r[id].first == first
            && r[id].tier == TierFor(r[id].score / TotalDays(es[|es| - 1].occurredOn - first))
    decreases |es|
  {
    var next := ProjectLoyalty(views, es[0]);
    assert next[id].first == Current(views, id, es[0].occurredOn).first;
    if |es| == 1 {
      assert es[1..] == [];
    } else {
      assert AllFor(es[1..], id);
      assert es[1..][|es| - 2] == es[|es| - 1];
      TierFollowsAverage(next, es[1..], id);
    }
  }

  /** The projector tests. 1000 deposited, then 500 ten days later: the score
      is 10000, the average exactly 1000, and the tier stays Standard because
      the Gold threshold is strict. 6000, then 0 ten days later: Platinum. */
  lemma LoyaltyExamples(id: Guid, t: Ticks)
    ensures var later := t + 10 * TicksPerDay;
            var r := ProjectLoyaltyAll(map[], [FundsDeposited(id, 1000.0, t), FundsDeposited(id, 500.0, later)]);
            id in r && r[id] == LoyaltyView(1500.0, 10000.0, t, later, Standard)
    ensures var later := t + 10 * TicksPerDay;
            var r := ProjectLoyaltyAll(map[], [FundsDeposited(id, 6000.0, t), FundsDeposited(id, 0.0, later)]);
            id in r && r[id].tier == Platinum && r[id].score == 60000.0
  {
    var later := t + 10 * TicksPerDay;
    assert TotalDays(later - t) == 10.0;
    var es := [FundsDeposited(id, 1000.0, t), FundsDeposited(id, 500.0, later)];
    assert es[1..] == [es[1]];
    var m1 := ProjectLoyalty(map[], es[0]);
    assert m1[id] == LoyaltyView(1000.0, 0.0, t, t, Standard);
    var m2 := ProjectLoyalty(m1, es[1]);
    assert m2[id].score == 10000.0;
    assert m2[id].score / TotalDays(later - t) == 1000.0;
    assert ProjectLoyaltyAll(map[], es) == ProjectLoyaltyAll(m1, [es[1]]);
    assert ProjectLoyaltyAll(m1, [es[1]]) == ProjectLoyaltyAll(m2, [es[1]][1..]);
    var fs := [FundsDeposited(id, 6000.0, t), FundsDeposited(id, 0.0, later)];
    assert fs[1..] == [fs[1]];
    var n1 := ProjectLoyalty(map[], fs[0]);
    var n2 := ProjectLoyalty(n1, fs[1]);
    assert n2[id].score == 60000.0;
    assert n2[id].score / TotalDays(later - t) == 6000.0;
    assert ProjectLoyaltyAll(map[], fs) == ProjectLoyaltyAll(n1, [fs[1]]);
    assert ProjectLoyaltyAll(n1, [fs[1]]) == ProjectLoyaltyAll(n2, [fs[1]][1..]);
  }
}
