/** The balance read model kept by `AccountBalanceProjector` and by
    `AccountProjector`, whose two `Consume` overloads are the same update:
    a deposit upserts the account's view, a withdrawal only updates a view
    that already exists. */
module BalanceProjection {
  import opened Common
  import opened Contracts
  import opened Domain

  /** An `AccountView` row: the projected balance and the number of events
      applied to it. */
  datatype AccountView = AccountView(balance: real, version: int)

  /** The `Accounts` table, keyed by account id. */
  type Views = map<Guid, AccountView>

  /** The row a deposit starts from when the account has none. */
  const NewView := AccountView(0.0, 0)

  /** One `Consume` call of either projector. */
  function Project(views: Views, e: FundsEvent): (r: Views)
    ensures OnlyKeyChanged(views, r, e.accountId)
    ensures e.FundsDeposited? ==>
              var v := if e.accountId in views then views[e.accountId] else NewView;
              e.accountId in r && r[e.accountId] == AccountView(v.balance + e.amount, v.version + 1)
    ensures e.FundsWithdrawn? ==> (e.accountId in r <==> e.accountId in views)
    ensures e.FundsWithdrawn? && e.accountId in views ==>
              r[e.accountId] == AccountView(views[e.accountId].balance - e.amount, views[e.accountId].version + 1)
  {
    match e
    case FundsDeposited(id, amount, _) =>
      var v := if id in views then views[id] else NewView;
      views[id := AccountView(v.balance + amount, v.version + 1)]
    case FundsWithdrawn(id, amount, _) =>
      if id in views then views[id := AccountView(views[id].balance - amount, views[id].version + 1)]
      else views
  }

  /** The events consumed in order. */
  function ProjectAll(views: Views, es: seq<FundsEvent>): Views
    decreases |es|
  {
    if es == [] then views else ProjectAll(Project(views, es[0]), es[1..])
  }

  /** Folding a single account's events into a view that exists (or that the
      first event, a deposit, creates) counts every event and moves the
      balance by their net amount. */
  lemma {:induction false} ProjectAllOneAccount(views: Views, es: seq<FundsEvent>, id: Guid)
    requires AllFor(es, id)
    requires id in views || (|es| > 0 && es[0].FundsDeposited?)
    ensures var v := if id in views then views[id] else NewView;
            && id in ProjectAll(views, es)
            && ProjectAll(views, es)[id] == AccountView(v.balance + NetAmount(es), v.version + |es|)
    decreases |es|
  {
    if es != [] {
      var next := Project(views, es[0]);
      assert AllFor(es[1..], id);
      ProjectAllOneAccount(next, es[1..], id);
    }
  }

  /** For one account whose first event is a deposit, starting from an empty
      table: `version` is the number of events and `balance` is the sum of
      deposits minus the sum of withdrawals. */
  lemma ViewIsDepositsMinusWithdrawals(es: seq<FundsEvent>, id: Guid)
    requires AllFor(es, id)
    requires |es| > 0 && es[0].FundsDeposited?
    ensures id in ProjectAll(map[], es)
    ensures ProjectAll(map[], es)[id].version == |es|
    ensures ProjectAll(map[], es)[id].balance == Deposits(es) - Withdrawals(es)
  {
    ProjectAllOneAccount(map[], es, id);
    NetIsDepositsMinusWithdrawals(es);
  }

  /** Withdrawals of an account with no view are dropped: without a deposit,
      no view is ever created. */
  lemma {:induction false} WithdrawalsAloneCreateNoView(views: Views, es: seq<FundsEvent>, id: Guid)
    requires id !in views
    requires forall i :: 0 <= i < |es| && es[i].accountId == id ==> es[i].FundsWithdrawn?
    ensures id !in ProjectAll(views, es)
    decreases |es|
  {
    if es != [] {
      WithdrawalsAloneCreateNoView(Project(views, es[0]), es[1..], id);
    }
  }

  /** Withdrawals that reach an account before it has a view are dropped:
      projecting the run is projecting what follows them. */
  lemma {:induction false} LeadingWithdrawalsDropped(views: Views, es: seq<FundsEvent>, id: Guid, k: nat)
    requires id !in views
    requires k <= |es|
    requires forall i :: 0 <= i < k ==> es[i].accountId == id && es[i].FundsWithdrawn?
    ensures ProjectAll(views, es) == ProjectAll(views, es[k..])
    decreases k
  {
    if k > 0 {
      assert Project(views, es[0]) == views;
      assert ProjectAll(views, es) == ProjectAll(views, es[1..]);
      LeadingWithdrawalsDropped(views, es[1..], id, k - 1);
      assert es[1..][k - 1..] == es[k..];
    }
  }

  /** A withdrawal of 5 ahead of the first deposit of 10 is dropped; the
      deposit then creates the view from zero. */
  lemma EarlyWithdrawalExample(id: Guid, t: Ticks)
    ensures id in ProjectAll(map[], [FundsWithdrawn(id, 5.0, t), FundsDeposited(id, 10.0, t)])
    ensures ProjectAll(map[], [FundsWithdrawn(id, 5.0, t), FundsDeposited(id, 10.0, t)])[id] == AccountView(10.0, 1)
  {
    var es := [FundsWithdrawn(id, 5.0, t), FundsDeposited(id, 10.0, t)];
    LeadingWithdrawalsDropped(map[], es, id, 1);
    assert es[1..] == [FundsDeposited(id, 10.0, t)];
    ProjectAllOneAccount(map[], es[1..], id);
    assert NetAmount(es[1..]) == 10.0 + NetAmount([]);
  }

  /** Events of other accounts leave a view alone. */
  lemma {:induction false} OtherAccountsUntouched(views: Views, es: seq<FundsEvent>, id: Guid)
    requires forall i :: 0 <= i < |es| ==> es[i].accountId != id
    ensures id in ProjectAll(views, es) <==> id in views
    ensures id in views ==> ProjectAll(views, es)[id] == views[id]
    decreases |es|
  {
    if es != [] {
      OtherAccountsUntouched(Project(views, es[0]), es[1..], id);
    }
  }

  /** The events as the objects the aggregate applies. */
  function AsChanges(es: seq<FundsEvent>): (r: seq<Change>)
    ensures |r| == |es|
    ensures forall i :: 0 <= i < |es| ==> r[i] == Funds(es[i])
    decreases |es|
  {
    if es == [] then [] else [Funds(es[0])] + AsChanges(es[1..])
  }

  lemma {:induction false} NetOfChanges(es: seq<FundsEvent>)
    ensures Net(AsChanges(es)) == NetAmount(es)
    decreases |es|
  {
    if es != [] {
      assert AsChanges(es)[1..] == AsChanges(es[1..]);
      NetOfChanges(es[1..]);
    }
  }

  /** The read model agrees with the write model: projecting an account's
      events gives the balance the aggregate reaches by replaying them. */
  lemma ViewAgreesWithReplay(es: seq<FundsEvent>, id: Guid)
    requires AllFor(es, id)
    requires |es| > 0 && es[0].FundsDeposited?
    ensures id in ProjectAll(map[], es)
    ensures ProjectAll(map[], es)[id].balance == Replay(Create(id).state, AsChanges(es)).balance
  {
    ProjectAllOneAccount(map[], es, id);
    NetOfChanges(es);
  }

  /** No lower bound on the view: a withdrawal larger than the balance is
      applied anyway (the projector trusts the command side). */
  lemma ViewCanGoNegative(id: Guid, t: Ticks)
    ensures id in ProjectAll(map[], [FundsDeposited(id, 10.0, t), FundsWithdrawn(id, 50.0, t)])
    ensures ProjectAll(map[], [FundsDeposited(id, 10.0, t), FundsWithdrawn(id, 50.0, t)])[id].balance == -40.0
  {
    var es := [FundsDeposited(id, 10.0, t), FundsWithdrawn(id, 50.0, t)];
    ProjectAllOneAccount(map[], es, id);
    assert es[1..] == [FundsWithdrawn(id, 50.0, t)];
    assert NetAmount(es[1..]) == -50.0 + NetAmount([]);
  }

  /** The projector tests' balances: 100 into an absent account gives 100,
      and 50 out of a seeded view of 200 gives 150. The versions and the
      withdrawal for an absent account follow the projector code. */
  lemma ProjectionExamples(id: Guid, t: Ticks)
    ensures Project(map[], FundsDeposited(id, 100.0, t))[id] == AccountView(100.0, 1)
    ensures Project(map[id := AccountView(200.0, 1)], FundsWithdrawn(id, 50.0, t))[id] == AccountView(150.0, 2)
    ensures Project(map[], FundsWithdrawn(id, 50.0, t)) == map[]
  {
  }
}
