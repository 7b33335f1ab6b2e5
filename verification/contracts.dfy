/** The two integration events shared by the command and the read side. */
module Contracts {
  import opened Common

  datatype FundsEvent =
    | FundsDeposited(accountId: Guid, amount: real, occurredOn: Ticks)
    | FundsWithdrawn(accountId: Guid, amount: real, occurredOn: Ticks)

  /** The signed effect of an event on a balance: deposits add, withdrawals subtract. */
  function Delta(e: FundsEvent): (d: real)
    ensures e.FundsDeposited? ==> d == e.amount
    ensures e.FundsWithdrawn? ==> d == -e.amount
  {
    match e
    case FundsDeposited(_, amount, _) => amount
    case FundsWithdrawn(_, amount, _) => -amount
  }

  /** Sum of deposits minus sum of withdrawals, the reference for every balance fold. */
  function NetAmount(es: seq<FundsEvent>): real
  {
    if es == [] then 0.0 else Delta(es[0]) + NetAmount(es[1..])
  }

  /** Sum of the amounts of the deposits in `es`. */
  function Deposits(es: seq<FundsEvent>): real
  {
    if es == [] then 0.0
    else (if es[0].FundsDeposited? then es[0].amount else 0.0) + Deposits(es[1..])
  }

  /** Sum of the amounts of the withdrawals in `es`. */
  function Withdrawals(es: seq<FundsEvent>): real
  {
    if es == [] then 0.0
    else (if es[0].FundsWithdrawn? then es[0].amount else 0.0) + Withdrawals(es[1..])
  }

  lemma {:induction false} NetIsDepositsMinusWithdrawals(es: seq<FundsEvent>)
    ensures NetAmount(es) == Deposits(es) - Withdrawals(es)
  {
    if es != [] {
      NetIsDepositsMinusWithdrawals(es[1..]);
    }
  }

  lemma {:induction false} NetAmountAppend(xs: seq<FundsEvent>, ys: seq<FundsEvent>)
    ensures NetAmount(xs + ys) == NetAmount(xs) + NetAmount(ys)
  {
    if xs == [] {
      assert xs + ys == ys;
    } else {
      assert (xs + ys)[1..] == xs[1..] + ys;
      NetAmountAppend(xs[1..], ys);
    }
  }

  /** True when every event in `es` is about account `id`. */
  predicate AllFor(es: seq<FundsEvent>, id: Guid)
  {
    forall i :: 0 <= i < |es| ==> es[i].accountId == id
  }
}
