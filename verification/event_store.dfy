/** `EventStoreRepository`: `SaveAsync` appends the uncommitted events with
    consecutive versions and upserts a snapshot every fifth version;
    `LoadAsync` hydrates from the snapshot and replays the newer events. */
module EventStore {
  import opened Common
  import opened Contracts
  import opened Domain
  import opened EventLog

  /** Snapshots are taken when the saved version is a multiple of this. */
  const SnapshotInterval: int := 5

  /** A `SnapshotEntity` row; `data` is `None` when the stored JSON
      deserialises to null. */
  datatype SnapshotRecord = SnapshotRecord(version: int, data: Option<AccountSnapshot>, createdOn: Ticks)

  /** The event table and the snapshot table, keyed by aggregate id. */
  datatype Store = Store(events: seq<EventRecord>, snapshots: map<Guid, SnapshotRecord>)

  /** The outcome of a successful save: the new tables and the aggregate. */
  datatype Saved = Saved(store: Store, aggregate: Account)

  /** Two rows with the same (AggregateId, Version) key. */
  predicate SameKey(x: EventRecord, y: EventRecord)
  {
    x.aggregateId == y.aggregateId && x.version == y.version
  }

  /** The unique (AggregateId, Version) index holds. */
  predicate UniqueKeys(log: seq<EventRecord>)
  {
    forall i, j :: 0 <= i < j < |log| ==> !SameKey(log[i], log[j])
  }

  /** The rows `SaveAsync` adds for `changes`, numbered from `from + 1`. */
  function NewRows(id: Guid, changes: seq<Change>, from: int, now: Ticks): (r: seq<EventRecord>)
    ensures |r| == |changes|
    ensures forall i :: 0 <= i < |r| ==>
              r[i].aggregateId == id && r[i].data == Encoded(changes[i]) &&
              r[i].occurredOn == now && r[i].version == from + i + 1
    decreases |changes|
  {
    if changes == [] then []
    else [EventRecord(id, Encoded(changes[0]), now, from + 1)] + NewRows(id, changes[1..], from + 1, now)
  }

  /** Some stored row of `id` already has a version in `(lo, hi]`. */
  predicate Occupied(log: seq<EventRecord>, id: Guid, lo: int, hi: int)
  {
    exists i :: 0 <= i < |log| && log[i].aggregateId == id && lo < log[i].version <= hi
  }

  /** A new row clashes with a stored key exactly when a stored row of the
      aggregate lies in the range of versions being assigned. */
  lemma ClashIsOccupied(log: seq<EventRecord>, id: Guid, changes: seq<Change>, from: int, now: Ticks)
    ensures Occupied(log, id, from, from + |changes|) <==>
              var rows := NewRows(id, changes, from, now);
              exists i, k :: 0 <= i < |log| && 0 <= k < |rows| && SameKey(log[i], rows[k])
  {
    var rows := NewRows(id, changes, from, now);
    if Occupied(log, id, from, from + |changes|) {
      var i :| 0 <= i < |log| && log[i].aggregateId == id && from < log[i].version <= from + |changes|;
      var k := log[i].version - from - 1;
      assert SameKey(log[i], rows[k]);
    }
  }

  /** `SaveAsync(aggregate)` at wall-clock time `now`. The batch is one
      `SaveChangesAsync`: a key clash rejects all of it and the aggregate
      keeps its uncommitted events. */
  function Save(store: Store, a: Account, now: Ticks): (r: Result<Saved>)
    ensures r.Err? <==>
              var rows := NewRows(a.state.id, a.uncommitted, a.version, now);
              exists i, k :: 0 <= i < |store.events| && 0 <= k < |rows| && SameKey(store.events[i], rows[k])
    ensures r.Err? ==> r.error == DbUpdateException
    ensures r.Ok? ==>
              var events := r.value.store.events;
              && |events| == |store.events| + |a.uncommitted|
              && events[..|store.events|] == store.events
              && forall k :: 0 <= k < |a.uncommitted| ==>
                   events[|store.events| + k] == EventRecord(a.state.id, Encoded(a.uncommitted[k]), now, a.version + k + 1)
    ensures r.Ok? && (a.version + |a.uncommitted|) % SnapshotInterval == 0 ==>
              r.value.store.snapshots.Keys == store.snapshots.Keys + {a.state.id} &&
              r.value.store.snapshots[a.state.id] ==
                SnapshotRecord(a.version + |a.uncommitted|, Some(AccountSnapshot(a.state.id, a.state.balance)), now)
    ensures r.Ok? && (a.version + |a.uncommitted|) % SnapshotInterval != 0 ==>
              r.value.store.snapshots == store.snapshots
    ensures r.Ok? ==> forall id :: id != a.state.id ==>
              (id in r.value.store.snapshots <==> id in store.snapshots) &&
              (id in store.snapshots ==> r.value.store.snapshots[id] == store.snapshots[id])
    ensures r.Ok? ==> (r.value.aggregate.uncommitted == [] &&
                       r.value.aggregate.version == a.version && r.value.aggregate.state == a.state)
  {
    var n := |a.uncommitted|;
    var version := a.version + n;
    var rows := NewRows(a.state.id, a.uncommitted, a.version, now);
    ClashIsOccupied(store.events, a.state.id, a.uncommitted, a.version, now);
    if Occupied(store.events, a.state.id, a.version, version) then
      Err(DbUpdateException)
    else
      // C#'s `%` truncates and Dafny's is Euclidean, but both are zero on the same values.
      var snapshots :=
        if version % SnapshotInterval == 0
        then store.snapshots[a.state.id := SnapshotRecord(version, Some(GetSnapshot(a)), now)]
        else store.snapshots;
      assert (store.events + rows)[..|store.events|] == store.events;
      Ok(Saved(Store(store.events + rows, snapshots), ClearEvents(a)))
  }

  lemma AppendKeepsKeysUnique(xs: seq<EventRecord>, ys: seq<EventRecord>)
    requires UniqueKeys(xs) && UniqueKeys(ys)
    requires !exists i, k :: 0 <= i < |xs| && 0 <= k < |ys| && SameKey(xs[i], ys[k])
    ensures UniqueKeys(xs + ys)
  {
    var zs := xs + ys;
    forall i, j | 0 <= i < j < |zs|
      ensures !SameKey(zs[i], zs[j])
    {
      if i >= |xs| {
        assert zs[i] == ys[i - |xs|] && zs[j] == ys[j - |xs|];
      } else if j >= |xs| {
        assert zs[i] == xs[i] && zs[j] == ys[j - |xs|];
      } else {
        assert zs[i] == xs[i] && zs[j] == xs[j];
      }
    }
  }

  /** A save keeps the (AggregateId, Version) index unique. */
  lemma SaveKeepsKeysUnique(store: Store, a: Account, now: Ticks)
    requires UniqueKeys(store.events)
    requires Save(store, a, now).Ok?
    ensures UniqueKeys(Save(store, a, now).value.store.events)
  {
    var rows := NewRows(a.state.id, a.uncommitted, a.version, now);
    assert UniqueKeys(rows);
    AppendKeepsKeysUnique(store.events, rows);
    assert Save(store, a, now).value.store.events == store.events + rows;
  }

  /** The version `LoadAsync` starts replaying after: the snapshot's, or 0. */
  function StartVersion(store: Store, id: Guid): int
  {
    if id in store.snapshots && store.snapshots[id].data.Some? then store.snapshots[id].version else 0
  }

  /** The instance `LoadAsync` replays into: hydrated from the snapshot when
      one deserialises, otherwise `new AccountAggregate()`. */
  function LoadBase(store: Store, id: Guid): (a: Account)
    ensures a.version == StartVersion(store, id) && a.uncommitted == []
    ensures id in store.snapshots && store.snapshots[id].data.Some? ==> a.state == store.snapshots[id].data.value
    ensures !(id in store.snapshots && store.snapshots[id].data.Some?) ==> a == Blank()
  {
    if id in store.snapshots && store.snapshots[id].data.Some?
    then HydrateFromSnapshot(Blank(), store.snapshots[id].data.value, store.snapshots[id].version)
    else Blank()
  }

  /** `LoadAsync(id)`; `None` is the null result. */
  function Load(store: Store, id: Guid): (r: Option<Account>)
    ensures r.None? <==>
              StartVersion(store, id) == 0 &&
              forall i :: 0 <= i < |store.events| && store.events[i].aggregateId == id ==> store.events[i].version <= 0
    ensures r.Some? ==> r.value.uncommitted == []
    ensures r.Some? ==> r.value.version == StartVersion(store, id) + |DecodeAll(Query(store.events, id, StartVersion(store, id)))|
    ensures r.Some? ==> r.value.state == Replay(LoadBase(store, id).state, DecodeAll(Query(store.events, id, StartVersion(store, id))))
  {
    var start := StartVersion(store, id);
    var rows := Query(store.events, id, start);
    QueryEmpty(store.events, id, start);
    if start == 0 && rows == [] then None
    else Some(LoadFromHistory(LoadBase(store, id), DecodeAll(rows)))
  }

  /** The query is empty exactly when no row of `id` lies above `start`. */
  lemma QueryEmpty(log: seq<EventRecord>, id: Guid, start: int)
    ensures Query(log, id, start) == [] <==>
              forall i :: 0 <= i < |log| && log[i].aggregateId == id ==> log[i].version <= start
  {
    var xs := Above(OfAggregate(log, id), start);
    OfAggregateMembers(log, id);
    AboveMembers(OfAggregate(log, id), start);
    if xs != [] {
      assert xs[0] in xs;
    }
    if exists i :: 0 <= i < |log| && log[i].aggregateId == id && log[i].version > start {
      var i :| 0 <= i < |log| && log[i].aggregateId == id && log[i].version > start;
      assert log[i] in xs;
    }
  }

  /** Rows that do not decode are skipped: the version advances by the
      number of queried rows that decode, so any undecodable row leaves it
      below the start version plus the number of queried rows. */
  lemma UndecodableRowsAreSkipped(store: Store, id: Guid)
    requires Load(store, id).Some?
    ensures var rows := Query(store.events, id, StartVersion(store, id));
            && Load(store, id).value.version == StartVersion(store, id) + CountEncoded(rows)
            && ((exists i :: 0 <= i < |rows| && rows[i].data.Undecodable?) ==>
                  Load(store, id).value.version < StartVersion(store, id) + |rows|)
  {
    DecodedCount(Query(store.events, id, StartVersion(store, id)));
  }

  /** The three rows of `SkipExample`, already one account's and in version
      order, are their own history. */
  lemma SkipExampleQuery(id: Guid, r1: EventRecord, r2: EventRecord, r3: EventRecord)
    requires r1.aggregateId == id && r2.aggregateId == id && r3.aggregateId == id
    requires r1.version == 1 && r2.version == 2 && r3.version == 3
    ensures Query([r1, r2, r3], id, 0) == [r1, r2, r3]
  {
    var log := [r1, r2, r3];
    assert log[1..] == [r2, r3] && [r2, r3][1..] == [r3] && [r3][1..] == [];
    assert OfAggregate([r3], id) == [r3];
    assert OfAggregate([r2, r3], id) == [r2, r3];
    assert OfAggregate(log, id) == log;
    assert Above([r3], 0) == [r3];
    assert Above([r2, r3], 0) == [r2, r3];
    assert Above(log, 0) == log;
    assert SortByVersion([r2, r3]) == Insert(r2, [r3]) == [r2, r3];
    assert SortByVersion(log) == Insert(r1, [r2, r3]) == log;
  }

  /** Deposits of 10 and 5 stored at versions 1 and 3 around an undecodable
      row at version 2 load as balance 15 at version 2: the middle row is
      skipped and the rows around it are still replayed. */
  lemma SkipExample(id: Guid, t: Ticks)
    ensures var store := Store([EventRecord(id, Encoded(Funds(FundsDeposited(id, 10.0, t))), t, 1),
                                EventRecord(id, Undecodable, t, 2),
                                EventRecord(id, Encoded(Funds(FundsDeposited(id, 5.0, t))), t, 3)], map[]);
            Load(store, id) == Some(Account(AccountSnapshot(id, 15.0), 2, []))
  {
    var c1 := Funds(FundsDeposited(id, 10.0, t));
    var c3 := Funds(FundsDeposited(id, 5.0, t));
    var r1 := EventRecord(id, Encoded(c1), t, 1);
    var r2 := EventRecord(id, Undecodable, t, 2);
    var r3 := EventRecord(id, Encoded(c3), t, 3);
    var log := [r1, r2, r3];
    SkipExampleQuery(id, r1, r2, r3);
    assert log[1..] == [r2, r3] && [r2, r3][1..] == [r3] && [r3][1..] == [];
    assert DecodeAll(log) == [c1, c3];
    assert [c1, c3][1..] == [c3] && [c3][1..] == [];
    assert Replay(Blank().state, [c1, c3]) == AccountSnapshot(id, 15.0);
  }

  /** A snapshot row whose data deserialises to null is ignored: with no
      event of the account stored, `LoadAsync` still returns null even
      though a snapshot row exists. */
  lemma NullSnapshotIsIgnored(id: Guid, v: int, t: Ticks)
    ensures Load(Store([], map[id := SnapshotRecord(v, None, t)]), id).None?
  {
  }

  /** A snapshot at version 0 leaves the start version at 0 too: with no
      event of the account stored, `LoadAsync` returns null although the
      snapshot deserialises. */
  lemma ZeroSnapshotLoadsNothing(id: Guid, s: AccountSnapshot, t: Ticks)
    ensures Load(Store([], map[id := SnapshotRecord(0, Some(s), t)]), id).None?
  {
  }
}
