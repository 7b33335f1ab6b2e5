/** The account aggregate: `AggregateRoot` (version and uncommitted-event
    bookkeeping) together with `AccountAggregate` (the state machine). */
module Domain {
  import opened Common
  import opened Contracts

  /** An object handed to `Apply`: one of the two funds events, or any other
      deserialised object, which the account's switch ignores. */
  datatype Change = Funds(event: FundsEvent) | Unrecognized(typeName: string)

  /** `AccountSnapshot(Id, Balance)`: the whole derived state of an account. */
  datatype AccountSnapshot = AccountSnapshot(id: Guid, balance: real)

  /** An aggregate instance: derived state, committed version and the events
      raised since the last save, oldest first. */
  datatype Account = Account(state: AccountSnapshot, version: int, uncommitted: seq<Change>)

  const DepositMustBePositive := "Deposit amount must be positive"
  const WithdrawMustBePositive := "Withdraw amount must be positive"
  const InsufficientFunds := "Insufficient funds"

  /** `new AccountAggregate()`: the instance the event store loads into. */
  function Blank(): (a: Account)
    ensures a.version == 0 && a.uncommitted == []
    ensures a.state.id == EmptyGuid && a.state.balance == 0.0
  {
    Account(AccountSnapshot(EmptyGuid, 0.0), 0, [])
  }

  /** `new AccountAggregate(id)`: a fresh account with no history. */
  function Create(id: Guid): (a: Account)
    ensures a.version == 0 && a.uncommitted == []
    ensures a.state.id == id && a.state.balance == 0.0
  {
    Account(AccountSnapshot(id, 0.0), 0, [])
  }

  /** Signed effect of one change on the balance. */
  function ChangeDelta(c: Change): real
  {
    match c
    case Funds(e) => Delta(e)
    case Unrecognized(_) => 0.0
  }

  /** Net effect of a sequence of changes on the balance. */
  function Net(h: seq<Change>): real
  {
    if h == [] then 0.0 else ChangeDelta(h[0]) + Net(h[1..])
  }

  lemma {:induction false} NetAppend(xs: seq<Change>, ys: seq<Change>)
    ensures Net(xs + ys) == Net(xs) + Net(ys)
  {
    if xs == [] {
      assert xs + ys == ys;
    } else {
      assert (xs + ys)[1..] == xs[1..] + ys;
      NetAppend(xs[1..], ys);
    }
  }

  /** `AccountAggregate.Apply`: each funds event sets the id to its account and
      moves the balance by its signed amount; anything else is ignored. */
  function Apply(s: AccountSnapshot, c: Change): (r: AccountSnapshot)
    ensures c.Unrecognized? ==> r == s
    ensures c.Funds? ==> r.id == c.event.accountId && r.balance == s.balance + Delta(c.event)
  {
    match c
    case Funds(FundsDeposited(accountId, amount, _)) => AccountSnapshot(accountId, s.balance + amount)
    case Funds(FundsWithdrawn(accountId, amount, _)) => AccountSnapshot(accountId, s.balance - amount)
    case Unrecognized(_) => s
  }

  /** True when `c` is a funds event of account `id`. */
  predicate OwnedBy(c: Change, id: Guid)
  {
    c.Funds? && c.event.accountId == id
  }

  /** Left fold of `Apply` over `h`: the state reached by replaying `h` from `s`. */
  function Replay(s: AccountSnapshot, h: seq<Change>): (r: AccountSnapshot)
    ensures r.balance == s.balance + Net(h)
    ensures (forall i :: 0 <= i < |h| ==> h[i].Unrecognized? || OwnedBy(h[i], s.id)) ==> r.id == s.id
    ensures (|h| > 0 && h[0].Funds? && forall i :: 0 <= i < |h| ==> OwnedBy(h[i], h[0].event.accountId))
            ==> r.id == h[0].event.accountId
    decreases |h|
  {
    if h == [] then s else Replay(Apply(s, h[0]), h[1..])
  }

  /** `AggregateRoot.ApplyChange(event, isNew)`: apply, then either queue the
      event as uncommitted (new) or count it as committed (replayed). */
  function ApplyChange(a: Account, c: Change, isNew: bool): (r: Account)
    ensures r.state == Apply(a.state, c)
    ensures isNew ==> r.uncommitted == a.uncommitted + [c] && r.version == a.version
    ensures !isNew ==> r.uncommitted == a.uncommitted && r.version == a.version + 1
  {
    var s := Apply(a.state, c);
    if isNew then Account(s, a.version, a.uncommitted + [c])
    else Account(s, a.version + 1, a.uncommitted)
  }

  /** `AggregateRoot.LoadFromHistory`: replay `h` in order as committed events. */
  function LoadFromHistory(a: Account, h: seq<Change>): (r: Account)
    ensures r.version == a.version + |h|
    ensures r.uncommitted == a.uncommitted
    ensures r.state == Replay(a.state, h)
    ensures r.state.balance == a.state.balance + Net(h)
    decreases |h|
  {
    if h == [] then a else LoadFromHistory(ApplyChange(a, h[0], false), h[1..])
  }

  /** `AggregateRoot.ClearEvents`. */
  function ClearEvents(a: Account): (r: Account)
    ensures r.uncommitted == []
    ensures r.state == a.state && r.version == a.version
  {
    a.(uncommitted := [])
  }

  /** `AccountAggregate.GetSnapshot`. */
  function GetSnapshot(a: Account): AccountSnapshot
  {
    a.state
  }

  /** `AccountAggregate.LoadSnapshot`. */
  function LoadSnapshot(a: Account, s: AccountSnapshot): Account
  {
    a.(state := s)
  }

  /** `AggregateRoot.HydrateFromSnapshot`: restore the snapshot's state and
      take its version; the uncommitted list is left alone. */
  function HydrateFromSnapshot(a: Account, s: AccountSnapshot, version: int): (r: Account)
    ensures GetSnapshot(r) == s && r.version == version
    ensures r.uncommitted == a.uncommitted
  {
    LoadSnapshot(a, s).(version := version)
  }

  /** Taking a snapshot and loading it into any instance restores id and balance. */
  lemma SnapshotRoundTrip(a: Account, b: Account)
    ensures LoadSnapshot(b, GetSnapshot(a)).state.id == a.state.id
    ensures LoadSnapshot(b, GetSnapshot(a)).state.balance == a.state.balance
    ensures LoadSnapshot(b, GetSnapshot(a)).version == b.version
  {
  }

  /** `AccountAggregate.Deposit(amount)` at wall-clock time `now`. */
  function Deposit(a: Account, amount: real, now: Ticks): (r: Result<Account>)
    ensures r.Err? <==> amount <= 0.0
    ensures r.Err? ==> r.error == ArgumentException(DepositMustBePositive)
    ensures r.Ok? ==> r.value.state.balance == a.state.balance + amount
    ensures r.Ok? ==> r.value.state.id == a.state.id && r.value.version == a.version
    ensures r.Ok? ==> r.value.uncommitted == a.uncommitted + [Funds(FundsDeposited(a.state.id, amount, now))]
  {
    if amount <= 0.0 then Err(ArgumentException(DepositMustBePositive))
    else Ok(ApplyChange(a, Funds(FundsDeposited(a.state.id, amount, now)), true))
  }

  /** `AccountAggregate.Withdraw(amount)` at wall-clock time `now`. */
  function Withdraw(a: Account, amount: real, now: Ticks): (r: Result<Account>)
    ensures r.Err? <==> amount <= 0.0 || a.state.balance < amount
    ensures amount <= 0.0 ==> r == Err(ArgumentException(WithdrawMustBePositive))
    ensures 0.0 < amount && a.state.balance < amount ==> r == Err(InvalidOperationException(InsufficientFunds))
    ensures r.Ok? ==> r.value.state.balance == a.state.balance - amount
    ensures r.Ok? ==> r.value.state.id == a.state.id && r.value.version == a.version
    ensures r.Ok? ==> r.value.uncommitted == a.uncommitted + [Funds(FundsWithdrawn(a.state.id, amount, now))]
  {
    if amount <= 0.0 then Err(ArgumentException(WithdrawMustBePositive))
    else if a.state.balance < amount then Err(InvalidOperationException(InsufficientFunds))
    else Ok(ApplyChange(a, Funds(FundsWithdrawn(a.state.id, amount, now)), true))
  }

  /** Commands keep the balance non-negative: a withdrawal is applied only when
      it is covered, and a deposit only adds a positive amount. */
  lemma CommandsKeepBalanceNonNegative(a: Account, amount: real, now: Ticks)
    requires a.state.balance >= 0.0
    ensures Deposit(a, amount, now).Ok? ==> Deposit(a, amount, now).value.state.balance > a.state.balance
    ensures Withdraw(a, amount, now).Ok? ==> 0.0 <= Withdraw(a, amount, now).value.state.balance < a.state.balance
  {
  }

  /** The domain tests: 100 into a fresh account gives 100 and one event;
      100 then -40 gives 60; 50 then -100 fails with "Insufficient funds". */
  lemma CommandExamples(id: Guid, t: Ticks)
    ensures Deposit(Create(id), 100.0, t).Ok?
    ensures Deposit(Create(id), 100.0, t).value.state.balance == 100.0
    ensures Deposit(Create(id), 100.0, t).value.uncommitted == [Funds(FundsDeposited(id, 100.0, t))]
    ensures Withdraw(ClearEvents(Deposit(Create(id), 100.0, t).value), 40.0, t).Ok?
    ensures Withdraw(ClearEvents(Deposit(Create(id), 100.0, t).value), 40.0, t).value.state.balance == 60.0
    ensures Withdraw(ClearEvents(Deposit(Create(id), 100.0, t).value), 40.0, t).value.uncommitted
            == [Funds(FundsWithdrawn(id, 40.0, t))]
    ensures Withdraw(Deposit(Create(id), 50.0, t).value, 100.0, t) == Err(InvalidOperationException(InsufficientFunds))
  {
  }
}
