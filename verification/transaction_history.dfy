/** `TransactionHistoryProjector`: an append-only ledger of the funds events
    the read side receives, one row per delivered message. */
module TransactionHistory {
  import opened Common
  import opened Contracts

  const Credit := "Credit"
  const Debit := "Debit"

  /** A `TransactionHistoryView` row. */
  datatype TransactionRow = TransactionRow(
    id: Guid, accountId: Guid, amount: real, transactionType: string, timestamp: Ticks, referenceId: Guid)

  /** One delivered message: the event, the transport's optional message id,
      and the two values `Guid.NewGuid()` would produce while consuming it
      (the row id and the reference id used when the message id is absent). */
  datatype Delivery = Delivery(event: FundsEvent, messageId: Option<Guid>, rowId: Guid, fallbackId: Guid)

  /** The signed amount a row stands for: credits add, debits subtract. */
  function Signed(row: TransactionRow): real
  {
    if row.transactionType == Credit then row.amount else -row.amount
  }

  /** The row one `Consume` call builds for a delivery. */
  function Row(d: Delivery): TransactionRow
  {
    var kind := if d.event.FundsDeposited? then Credit else Debit;
    var reference := match d.messageId case Some(m) => m case None => d.fallbackId;
    TransactionRow(d.rowId, d.event.accountId, d.event.amount, kind, d.event.occurredOn, reference)
  }

  /** One `Consume` call: append a row describing the event. */
  function Record(rows: seq<TransactionRow>, d: Delivery): (r: seq<TransactionRow>)
    ensures |r| == |rows| + 1 && r[..|rows|] == rows
    ensures var row := r[|rows|];
            && row.id == d.rowId
            && row.accountId == d.event.accountId
            && row.amount == d.event.amount
            && row.timestamp == d.event.occurredOn
            && (row.transactionType == Credit <==> d.event.FundsDeposited?)
            && (row.transactionType == Debit <==> d.event.FundsWithdrawn?)
            && (d.messageId.Some? ==> row.referenceId == d.messageId.value)
            && (d.messageId.None? ==> row.referenceId == d.fallbackId)
    ensures Signed(r[|rows|]) == Delta(d.event)
  {
    rows + [Row(d)]
  }

  /** The messages consumed in order. */
  function RecordAll(rows: seq<TransactionRow>, ds: seq<Delivery>): seq<TransactionRow>
    decreases |ds|
  {
    if ds == [] then rows else RecordAll(Record(rows, ds[0]), ds[1..])
  }

  /** The events carried by a run of deliveries. */
  function Events(ds: seq<Delivery>): (es: seq<FundsEvent>)
    ensures |es| == |ds|
    ensures forall i :: 0 <= i < |ds| ==> es[i] == ds[i].event
    decreases |ds|
  {
    if ds == [] then [] else [ds[0].event] + Events(ds[1..])
  }

  /** The history is append-only: the existing rows are kept as they are, and
      exactly one row is added per delivery, in delivery order, describing it. */
  lemma {:induction false} RecordAllAppends(rows: seq<TransactionRow>, ds: seq<Delivery>)
    ensures |RecordAll(rows, ds)| == |rows| + |ds|
    ensures RecordAll(rows, ds)[..|rows|] == rows
    ensures forall i :: 0 <= i < |ds| ==> RecordAll(rows, ds)[|rows| + i] == Row(ds[i])
    decreases |ds|
  {
    if ds != [] {
      var next := rows + [Row(ds[0])];
      assert Record(rows, ds[0]) == next;
      RecordAllAppends(next, ds[1..]);
      var r := RecordAll(next, ds[1..]);
      assert r[..|rows|] == r[..|next|][..|rows|];
      assert r[|rows|] == r[..|next|][|rows|];
      forall i | 1 <= i < |ds|
        ensures r[|rows| + i] == Row(ds[i])
      {
        assert r[|next| + (i - 1)] == Row(ds[1..][i - 1]);
      }
    }
  }

  /** Sum of the signed amounts of `rows`. */
  function SignedTotal(rows: seq<TransactionRow>): real
  {
    if rows == [] then 0.0 else Signed(rows[0]) + SignedTotal(rows[1..])
  }

  lemma {:induction false} SignedTotalAppend(xs: seq<TransactionRow>, ys: seq<TransactionRow>)
    ensures SignedTotal(xs + ys) == SignedTotal(xs) + SignedTotal(ys)
  {
    if xs == [] {
      assert xs + ys == ys;
    } else {
      assert (xs + ys)[1..] == xs[1..] + ys;
      SignedTotalAppend(xs[1..], ys);
    }
  }

  /** The ledger balances: the signed total of the rows written for a run of
      deliveries is the net amount of their events. */
  lemma {:induction false} LedgerTotalIsNetAmount(rows: seq<TransactionRow>, ds: seq<Delivery>)
    ensures SignedTotal(RecordAll(rows, ds)) == SignedTotal(rows) + NetAmount(Events(ds))
    decreases |ds|
  {
    if ds != [] {
      var next := Record(rows, ds[0]);
      LedgerTotalIsNetAmount(next, ds[1..]);
      assert next == rows + [next[|rows|]];
      SignedTotalAppend(rows, [next[|rows|]]);
      assert Events(ds)[1..] == Events(ds[1..]);
    }
  }

  /** No deduplication: a message delivered twice is recorded twice. Each
      `Consume` draws a fresh row id, so the two rows differ in `id` but
      agree on everything the message carries, including the reference when
      the transport supplied a message id. */
  lemma RedeliveryIsRecordedTwice(rows: seq<TransactionRow>, d1: Delivery, d2: Delivery)
    requires d1.event == d2.event && d1.messageId == d2.messageId
    requires d1.rowId != d2.rowId
    ensures var r := RecordAll(rows, [d1, d2]);
            && |r| == |rows| + 2
            && r[|rows|].id != r[|rows| + 1].id
            && r[|rows|].accountId == r[|rows| + 1].accountId
            && r[|rows|].amount == r[|rows| + 1].amount
            && r[|rows|].transactionType == r[|rows| + 1].transactionType
            && r[|rows|].timestamp == r[|rows| + 1].timestamp
            && (d1.messageId.Some? ==> r[|rows|].referenceId == r[|rows| + 1].referenceId)
  {
    RecordAllAppends(rows, [d1, d2]);
  }

  /** The row ids are distinct: `Id` is the table's primary key. */
  predicate UniqueIds(rows: seq<TransactionRow>)
  {
    forall i, j :: 0 <= i < j < |rows| ==> rows[i].id != rows[j].id
  }

  /** Fresh ids keep the primary key unique: when every delivery draws an id
      that no earlier row or delivery has, recording the run never repeats a
      row id. */
  lemma FreshIdsKeepKeysUnique(rows: seq<TransactionRow>, ds: seq<Delivery>)
    requires UniqueIds(rows)
    requires forall i, j :: 0 <= i < j < |ds| ==> ds[i].rowId != ds[j].rowId
    requires forall i, k :: 0 <= i < |rows| && 0 <= k < |ds| ==> rows[i].id != ds[k].rowId
    ensures UniqueIds(RecordAll(rows, ds))
  {
    RecordAllAppends(rows, ds);
    var r := RecordAll(rows, ds);
    forall i, j | 0 <= i < j < |r|
      ensures r[i].id != r[j].id
    {
      if j >= |rows| {
        assert r[j].id == ds[j - |rows|].rowId;
        if i >= |rows| {
          assert r[i].id == ds[i - |rows|].rowId;
        } else {
          assert r[i] == r[..|rows|][i];
        }
      } else {
        assert r[i] == r[..|rows|][i] && r[j] == r[..|rows|][j];
      }
    }
  }

  /** The projector tests: a deposit of 100 is a Credit row of 100 at the
      event's time; a withdrawal of 50 is a Debit row of 50, not -50. */
  lemma HistoryExamples(id: Guid, t: Ticks, m: Guid, r: Guid, f: Guid)
    ensures var row := Record([], Delivery(FundsDeposited(id, 100.0, t), Some(m), r, f))[0];
            row == TransactionRow(r, id, 100.0, Credit, t, m)
    ensures var row := Record([], Delivery(FundsWithdrawn(id, 50.0, t), Some(m), r, f))[0];
            row == TransactionRow(r, id, 50.0, Debit, t, m)
  {
  }
}
