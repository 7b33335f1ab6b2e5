/** What the event store guarantees about the states `SaveAsync` produces:
    a snapshot plus the events after it replays to the same balance as the
    whole stored history, and saving a loaded, commanded aggregate keeps
    the tables consistent. */
module StoreInvariants {
  import opened Common
  import opened Contracts
  import opened Domain
  import opened EventLog
  import opened EventStore

  /** Replaying the whole stored history of `id` from a blank aggregate,
      ignoring any snapshot. */
  function FullReplay(store: Store, id: Guid): AccountSnapshot
  {
    Replay(Blank().state, DecodeAll(History(store.events, id)))
  }

  /** Every snapshot that deserialises records the balance of the stored
      history up to its own version. */
  predicate SnapshotsFaithful(store: Store)
  {
    forall id :: id in store.snapshots && store.snapshots[id].data.Some? ==>
      && store.snapshots[id].version >= 0
      && store.snapshots[id].data.value.balance
         == Net(DecodeAll(HistoryUpTo(store.events, id, store.snapshots[id].version)))
  }

  /** Snapshot + tail replay is full replay: the balance `LoadAsync` rebuilds
      from a faithful snapshot and the events after it equals the balance of
      replaying every stored event of the account from scratch. */
  lemma SnapshotPlusTailIsFullReplay(store: Store, id: Guid)
    requires SnapshotsFaithful(store)
    requires Load(store, id).Some?
    ensures Load(store, id).value.state.balance == FullReplay(store, id).balance
  {
    var sv := StartVersion(store, id);
    var tail := Query(store.events, id, sv);
    if id in store.snapshots && store.snapshots[id].data.Some? {
      var prefix := HistoryUpTo(store.events, id, sv);
      HistorySplit(store.events, id, sv);
      DecodeAllAppend(prefix, tail);
      NetAppend(DecodeAll(prefix), DecodeAll(tail));
    }
  }

  // ---------------------------------------------------------------------
  // The invariant of the tables written by SaveAsync.

  /** Rows and snapshots as `SaveAsync` writes them: positive versions, every
      payload decodes to a funds event of the row's aggregate, and every
      snapshot is of its own key at a version inside the stored history. */
  predicate WellFormed(store: Store)
  {
    && (forall i :: 0 <= i < |store.events| ==>
          store.events[i].version > 0 && store.events[i].data.Encoded? &&
          OwnedBy(store.events[i].data.change, store.events[i].aggregateId))
    && (forall id :: id in store.snapshots ==>
          store.snapshots[id].data.Some? && store.snapshots[id].data.value.id == id &&
          0 <= store.snapshots[id].version <= |History(store.events, id)|)
  }

  /** The history of every aggregate carries versions 1, 2, ..., n. */
  ghost predicate Contiguous(store: Store)
  {
    forall id, i :: 0 <= i < |History(store.events, id)| ==> History(store.events, id)[i].version == i + 1
  }

  /** No stored history replays to a negative balance. */
  ghost predicate BalancesNonNegative(store: Store)
  {
    forall id :: FullReplay(store, id).balance >= 0.0
  }

  ghost predicate Consistent(store: Store)
  {
    && UniqueKeys(store.events)
    && WellFormed(store)
    && Contiguous(store)
    && SnapshotsFaithful(store)
    && BalancesNonNegative(store)
  }

  /** An aggregate in step with the tables: its version is the length of its
      stored history, its balance is that history's balance plus its
      uncommitted events, and those events are its own. */
  predicate Synced(store: Store, a: Account)
  {
    var h := History(store.events, a.state.id);
    && a.version == |h|
    && a.state.balance == Net(DecodeAll(h)) + Net(a.uncommitted)
    && forall i :: 0 <= i < |a.uncommitted| ==> OwnedBy(a.uncommitted[i], a.state.id)
  }

  lemma EmptyStoreIsConsistent()
    ensures Consistent(Store([], map[]))
  {
    var store := Store([], map[]);
    forall id
      ensures History(store.events, id) == []
    {
    }
  }

  /** The rows of a history are stored rows of that aggregate, and every
      stored row of the aggregate with a positive version is in it. */
  lemma HistoryMembers(log: seq<EventRecord>, id: Guid)
    ensures forall x :: x in History(log, id) <==> x in log && x.aggregateId == id && x.version > 0
  {
    OfAggregateMembers(log, id);
    AboveMembers(OfAggregate(log, id), 0);
    var xs := Above(OfAggregate(log, id), 0);
    SortPermutes(xs);
    assert multiset(History(log, id)) == multiset(xs);
    forall x
      ensures x in History(log, id) <==> x in xs
    {
      assert x in History(log, id) <==> x in multiset(History(log, id));
      assert x in xs <==> x in multiset(xs);
    }
  }

  /** In a well-formed store every history row decodes to a funds event of
      its aggregate. */
  lemma HistoryRowsOwned(store: Store, id: Guid)
    requires WellFormed(store)
    ensures forall i :: 0 <= i < |History(store.events, id)| ==>
              History(store.events, id)[i].data.Encoded? &&
              OwnedBy(History(store.events, id)[i].data.change, id)
  {
    HistoryMembers(store.events, id);
    forall i | 0 <= i < |History(store.events, id)|
      ensures History(store.events, id)[i].data.Encoded? && OwnedBy(History(store.events, id)[i].data.change, id)
    {
      var x := History(store.events, id)[i];
      assert x in History(store.events, id);
      var k :| 0 <= k < |store.events| && store.events[k] == x;
    }
  }

  /** A stored row of an aggregate in a well-formed, contiguous store has a
      version no greater than the length of its history. */
  lemma RowsWithinHistory(store: Store, id: Guid)
    requires WellFormed(store) && Contiguous(store)
    ensures forall i :: 0 <= i < |store.events| && store.events[i].aggregateId == id ==>
              0 < store.events[i].version <= |History(store.events, id)|
  {
    HistoryMembers(store.events, id);
    forall i | 0 <= i < |store.events| && store.events[i].aggregateId == id
      ensures 0 < store.events[i].version <= |History(store.events, id)|
    {
      assert store.events[i] in History(store.events, id);
      var k :| 0 <= k < |History(store.events, id)| && History(store.events, id)[k] == store.events[i];
    }
  }

  lemma HistoryNumbered(store: Store, id: Guid)
    requires Contiguous(store)
    ensures forall i :: 0 <= i < |History(store.events, id)| ==> History(store.events, id)[i].version == i + 1
  {
  }

  /** On a history numbered 1, 2, ..., the query after `sv` is its suffix. */
  lemma QueryIsSuffix(log: seq<EventRecord>, id: Guid, sv: int)
    requires 0 <= sv <= |History(log, id)|
    requires forall i :: 0 <= i < |History(log, id)| ==> History(log, id)[i].version == i + 1
    ensures Query(log, id, sv) == History(log, id)[sv..]
  {
    HistorySplit(log, id, sv);
    NumberedSplit(History(log, id), 0, sv);
  }

  /** In a well-formed, contiguous store `LoadAsync` queries exactly the
      history after its start version. */
  lemma TailIsSuffix(store: Store, id: Guid)
    requires WellFormed(store) && Contiguous(store)
    ensures 0 <= StartVersion(store, id) <= |History(store.events, id)|
    ensures Query(store.events, id, StartVersion(store, id)) == History(store.events, id)[StartVersion(store, id)..]
  {
    HistoryNumbered(store, id);
    QueryIsSuffix(store.events, id, StartVersion(store, id));
  }

  /** In a well-formed store every suffix of a history decodes in full to
      funds events of that aggregate. */
  lemma SuffixDecodes(store: Store, id: Guid, k: int)
    requires WellFormed(store)
    requires 0 <= k <= |History(store.events, id)|
    ensures var changes := DecodeAll(History(store.events, id)[k..]);
            && |changes| == |History(store.events, id)| - k
            && forall i :: 0 <= i < |changes| ==> OwnedBy(changes[i], id)
  {
    var h := History(store.events, id);
    var tail := h[k..];
    HistoryRowsOwned(store, id);
    assert forall i :: 0 <= i < |tail| ==> tail[i] == h[k + i];
    assert forall i :: 0 <= i < |tail| ==> tail[i].data.Encoded? && OwnedBy(tail[i].data.change, id);
  }

  /** `LoadAsync` on a consistent store yields an aggregate in step with it,
      under the requested id and at the full history's version. */
  lemma LoadIsSynced(store: Store, id: Guid)
    requires Consistent(store)
    requires Load(store, id).Some?
    ensures Load(store, id).value.state.id == id
    ensures Load(store, id).value.uncommitted == []
    ensures Synced(store, Load(store, id).value)
  {
    var a := Load(store, id).value;
    var sv := StartVersion(store, id);
    var changes := DecodeAll(Query(store.events, id, sv));
    TailIsSuffix(store, id);
    SuffixDecodes(store, id, sv);
    if id in store.snapshots {
      assert LoadBase(store, id).state.id == id;
    } else {
      assert |changes| > 0;
      assert changes[0].Funds? && changes[0].event.accountId == id;
    }
    assert a.state.id == id;
    SnapshotPlusTailIsFullReplay(store, id);
  }

  /** When `LoadAsync` finds nothing, a new account under that id is in step
      with the store. */
  lemma CreateIsSynced(store: Store, id: Guid)
    requires Consistent(store)
    requires Load(store, id).None?
    ensures Synced(store, Create(id))
  {
    QueryEmpty(store.events, id, 0);
  }

  lemma DepositKeepsSynced(store: Store, a: Account, amount: real, now: Ticks)
    requires Synced(store, a)
    requires Deposit(a, amount, now).Ok?
    ensures Synced(store, Deposit(a, amount, now).value)
  {
    NetAppend(a.uncommitted, [Funds(FundsDeposited(a.state.id, amount, now))]);
  }

  lemma WithdrawKeepsSynced(store: Store, a: Account, amount: real, now: Ticks)
    requires Synced(store, a)
    requires Withdraw(a, amount, now).Ok?
    ensures Synced(store, Withdraw(a, amount, now).value)
  {
    NetAppend(a.uncommitted, [Funds(FundsWithdrawn(a.state.id, amount, now))]);
  }

  /** A synced aggregate never clashes with the stored keys. */
  lemma SyncedSaveSucceeds(store: Store, a: Account, now: Ticks)
    requires WellFormed(store) && Contiguous(store) && Synced(store, a)
    ensures Save(store, a, now).Ok?
  {
    RowsWithinHistory(store, a.state.id);
    ClashIsOccupied(store.events, a.state.id, a.uncommitted, a.version, now);
  }

  /** The saved aggregate's history gains exactly the new rows at its end,
      and its prefixes up to the old version are unchanged. */
  lemma HistoryAfterSave(store: Store, a: Account, now: Ticks)
    requires WellFormed(store) && Contiguous(store) && Synced(store, a)
    ensures var rows := NewRows(a.state.id, a.uncommitted, a.version, now);
            History(store.events + rows, a.state.id) == History(store.events, a.state.id) + rows
    ensures var rows := NewRows(a.state.id, a.uncommitted, a.version, now);
            forall v :: 0 <= v <= a.version ==>
              HistoryUpTo(store.events + rows, a.state.id, v) == HistoryUpTo(store.events, a.state.id, v)
  {
    var id := a.state.id;
    var rows := NewRows(id, a.uncommitted, a.version, now);
    var log := store.events;
    OfAggregateAppend(log, rows, id);
    OfAggregateAll(rows, id);
    var ys := Above(OfAggregate(log, id), 0);
    AboveAppend(OfAggregate(log, id), rows, 0);
    AboveAll(rows, 0);
    assert Above(OfAggregate(log + rows, id), 0) == ys + rows;
    // every existing row of the aggregate lies below the new versions
    RowsWithinHistory(store, id);
    OfAggregateMembers(log, id);
    AboveMembers(OfAggregate(log, id), 0);
    forall i, j | 0 <= i < |ys| && 0 <= j < |rows|
      ensures ys[i].version < rows[j].version
    {
      assert ys[i] in ys;
      var k :| 0 <= k < |log| && log[k] == ys[i];
    }
    SortAppendAbove(ys, rows);
    forall v | 0 <= v <= a.version
      ensures HistoryUpTo(log + rows, id, v) == HistoryUpTo(log, id, v)
    {
      AtMostAppend(ys, rows, v);
      AtMostNone(rows, v);
      assert AtMost(ys + rows, v) == AtMost(ys, v);
    }
  }

  /** Rows of one aggregate leave every other aggregate's history alone. */
  lemma OtherHistoriesUnchanged(log: seq<EventRecord>, rows: seq<EventRecord>, id: Guid, other: Guid)
    requires forall k :: 0 <= k < |rows| ==> rows[k].aggregateId == id
    requires other != id
    ensures History(log + rows, other) == History(log, other)
    ensures forall v :: HistoryUpTo(log + rows, other, v) == HistoryUpTo(log, other, v)
  {
    OfAggregateAppend(log, rows, other);
    OfAggregateNone(rows, other);
    assert OfAggregate(log + rows, other) == OfAggregate(log, other);
  }

  /** Appending rows numbered after a history numbered 1..n keeps the
      numbering contiguous. */
  lemma NumberedAppend(h: seq<EventRecord>, rows: seq<EventRecord>)
    requires forall i :: 0 <= i < |h| ==> h[i].version == i + 1
    requires forall k :: 0 <= k < |rows| ==> rows[k].version == |h| + k + 1
    ensures forall i :: 0 <= i < |h + rows| ==> (h + rows)[i].version == i + 1
  {
    forall i | 0 <= i < |h + rows|
      ensures (h + rows)[i].version == i + 1
    {
      if i >= |h| {
        assert (h + rows)[i] == rows[i - |h|];
      } else {
        assert (h + rows)[i] == h[i];
      }
    }
  }

  /** The new rows decode back to the uncommitted events they came from. */
  lemma DecodeNewRows(id: Guid, changes: seq<Change>, from: int, now: Ticks)
    ensures DecodeAll(NewRows(id, changes, from, now)) == changes
  {
    var rows := NewRows(id, changes, from, now);
    assert |DecodeAll(rows)| == |changes|;
  }

  /** The events table after a successful save is the old one followed by
      the numbered rows of the uncommitted events. */
  lemma SavedEvents(store: Store, a: Account, now: Ticks)
    requires Save(store, a, now).Ok?
    ensures Save(store, a, now).value.store.events
            == store.events + NewRows(a.state.id, a.uncommitted, a.version, now)
  {
  }

  /** The stored history of the saved aggregate is in step with its balance. */
  lemma SavedBalance(store: Store, a: Account, now: Ticks)
    requires Synced(store, a)
    ensures var rows := NewRows(a.state.id, a.uncommitted, a.version, now);
            Net(DecodeAll(History(store.events, a.state.id) + rows)) == a.state.balance
  {
    var rows := NewRows(a.state.id, a.uncommitted, a.version, now);
    var h := History(store.events, a.state.id);
    DecodeNewRows(a.state.id, a.uncommitted, a.version, now);
    DecodeAllAppend(h, rows);
    NetAppend(DecodeAll(h), a.uncommitted);
  }

  lemma SaveKeepsContiguous(store: Store, a: Account, now: Ticks)
    requires WellFormed(store) && Contiguous(store) && Synced(store, a)
    requires Save(store, a, now).Ok?
    ensures Contiguous(Save(store, a, now).value.store)
  {
    var id := a.state.id;
    var rows := NewRows(id, a.uncommitted, a.version, now);
    var log := store.events;
    var log' := Save(store, a, now).value.store.events;
    SavedEvents(store, a, now);
    HistoryAfterSave(store, a, now);
    HistoryNumbered(store, id);
    NumberedAppend(History(log, id), rows);
    forall other, i | 0 <= i < |History(log', other)|
      ensures History(log', other)[i].version == i + 1
    {
      if other != id {
        OtherHistoriesUnchanged(log, rows, id, other);
        HistoryNumbered(store, other);
      }
    }
  }

  /** Well-formed rows appended to well-formed rows stay well-formed. */
  lemma AppendRowsWellFormed(log: seq<EventRecord>, rows: seq<EventRecord>)
    requires forall i :: 0 <= i < |log| ==>
               log[i].version > 0 && log[i].data.Encoded? && OwnedBy(log[i].data.change, log[i].aggregateId)
    requires forall k :: 0 <= k < |rows| ==>
               rows[k].version > 0 && rows[k].data.Encoded? && OwnedBy(rows[k].data.change, rows[k].aggregateId)
    ensures var log' := log + rows;
            forall i :: 0 <= i < |log'| ==>
              log'[i].version > 0 && log'[i].data.Encoded? && OwnedBy(log'[i].data.change, log'[i].aggregateId)
  {
    var log' := log + rows;
    forall i | 0 <= i < |log'|
      ensures log'[i].version > 0 && log'[i].data.Encoded? && OwnedBy(log'[i].data.change, log'[i].aggregateId)
    {
      if i >= |log| {
        assert log'[i] == rows[i - |log|];
      } else {
        assert log'[i] == log[i];
      }
    }
  }

  lemma SaveKeepsRowsWellFormed(store: Store, a: Account, now: Ticks)
    requires WellFormed(store) && Synced(store, a)
    requires Save(store, a, now).Ok?
    ensures var log' := Save(store, a, now).value.store.events;
            forall i :: 0 <= i < |log'| ==>
              log'[i].version > 0 && log'[i].data.Encoded? && OwnedBy(log'[i].data.change, log'[i].aggregateId)
  {
    var rows := NewRows(a.state.id, a.uncommitted, a.version, now);
    SavedEvents(store, a, now);
    AppendRowsWellFormed(store.events, rows);
  }

  /** One snapshot after a save: of its own key, within the history, and
      faithful to it. */
  predicate SnapshotSound(store: Store, id: Guid)
    requires id in store.snapshots
  {
    && store.snapshots[id].data.Some? && store.snapshots[id].data.value.id == id
    && 0 <= store.snapshots[id].version <= |History(store.events, id)|
    && store.snapshots[id].data.value.balance
       == Net(DecodeAll(HistoryUpTo(store.events, id, store.snapshots[id].version)))
  }

  /** A snapshot the save did not touch stays sound. */
  lemma KeptSnapshotSound(store: Store, store': Store, rows: seq<EventRecord>, id: Guid, v: int, other: Guid)
    requires other in store.snapshots && SnapshotSound(store, other)
    requires store'.events == store.events + rows
    requires other in store'.snapshots && store'.snapshots[other] == store.snapshots[other]
    requires forall k :: 0 <= k < |rows| ==> rows[k].aggregateId == id
    requires other == id ==> History(store'.events, id) == History(store.events, id) + rows
    requires other == id ==> store.snapshots[other].version <= v
    requires other == id ==> forall u :: 0 <= u <= v ==> HistoryUpTo(store'.events, id, u) == HistoryUpTo(store.events, id, u)
    ensures SnapshotSound(store', other)
  {
    if other != id {
      OtherHistoriesUnchanged(store.events, rows, id, other);
    }
  }

  /** The snapshot a save on a boundary writes is sound. */
  lemma WrittenSnapshotSound(store: Store, a: Account, now: Ticks)
    requires WellFormed(store) && Contiguous(store) && Synced(store, a)
    requires Save(store, a, now).Ok?
    requires (a.version + |a.uncommitted|) % SnapshotInterval == 0
    ensures a.state.id in Save(store, a, now).value.store.snapshots
    ensures SnapshotSound(Save(store, a, now).value.store, a.state.id)
  {
    var id := a.state.id;
    var rows := NewRows(id, a.uncommitted, a.version, now);
    var h := History(store.events, id);
    HistoryAfterSave(store, a, now);
    HistoryNumbered(store, id);
    SavedBalance(store, a, now);
    var n := a.version + |a.uncommitted|;
    NewSnapshotFaithful(store.events + rows, id, h, rows, n, a.state.balance);
    SaveWritesSnapshot(store, a, now);
    NewSnapshotSound(Save(store, a, now).value.store, store.events + rows, id, n, a.state.balance, now);
  }

  /** Every snapshot is sound after the save: the one it wrote and those it kept. */
  lemma SnapshotAfterSave(store: Store, a: Account, now: Ticks, other: Guid)
    requires WellFormed(store) && Contiguous(store) && SnapshotsFaithful(store) && Synced(store, a)
    requires Save(store, a, now).Ok?
    requires other in Save(store, a, now).value.store.snapshots
    ensures SnapshotSound(Save(store, a, now).value.store, other)
  {
    if other == a.state.id && (a.version + |a.uncommitted|) % SnapshotInterval == 0 {
      WrittenSnapshotSound(store, a, now);
    } else {
      var rows := NewRows(a.state.id, a.uncommitted, a.version, now);
      SavedEvents(store, a, now);
      HistoryAfterSave(store, a, now);
      assert SnapshotSound(store, other);
      KeptSnapshotSound(store, Save(store, a, now).value.store, rows, a.state.id, a.version, other);
    }
  }


  lemma SaveKeepsSnapshots(store: Store, a: Account, now: Ticks)
    requires WellFormed(store) && Contiguous(store) && SnapshotsFaithful(store) && Synced(store, a)
    requires Save(store, a, now).Ok?
    ensures var store' := Save(store, a, now).value.store;
            forall other :: other in store'.snapshots ==> SnapshotSound(store', other)
  {
    forall other | other in Save(store, a, now).value.store.snapshots
      ensures SnapshotSound(Save(store, a, now).value.store, other)
    {
      SnapshotAfterSave(store, a, now, other);
    }
  }

  /** On a history numbered 1..n, the history up to n is all of it. */
  lemma UpToWholeHistory(log: seq<EventRecord>, id: Guid)
    requires forall i :: 0 <= i < |History(log, id)| ==> History(log, id)[i].version == i + 1
    ensures HistoryUpTo(log, id, |History(log, id)|) == History(log, id)
  {
    var n := |History(log, id)|;
    HistorySplit(log, id, n);
    NumberedSplit(History(log, id), 0, n);
  }

  /** A history numbered 1..n followed by rows numbered n+1.. is wholly
      within the history up to its new length. */
  lemma UpToExtendedHistory(log: seq<EventRecord>, id: Guid, h: seq<EventRecord>, rows: seq<EventRecord>)
    requires History(log, id) == h + rows
    requires forall i :: 0 <= i < |h| ==> h[i].version == i + 1
    requires forall k :: 0 <= k < |rows| ==> rows[k].version == |h| + k + 1
    ensures HistoryUpTo(log, id, |h| + |rows|) == h + rows
  {
    NumberedAppend(h, rows);
    UpToWholeHistory(log, id);
  }

  /** A history numbered 1..n that gained rows numbered n+1.. replays, as a
      whole and up to its new length, to the balance of the extended run. */
  lemma NewSnapshotFaithful(log: seq<EventRecord>, id: Guid, h: seq<EventRecord>, rows: seq<EventRecord>, n: int, balance: real)
    requires History(log, id) == h + rows
    requires forall i :: 0 <= i < |h| ==> h[i].version == i + 1
    requires forall k :: 0 <= k < |rows| ==> rows[k].version == |h| + k + 1
    requires n == |h| + |rows|
    requires Net(DecodeAll(h + rows)) == balance
    ensures |History(log, id)| == n
    ensures Net(DecodeAll(HistoryUpTo(log, id, n))) == balance
  {
    UpToExtendedHistory(log, id, h, rows);
  }

  /** What a save on a snapshot boundary writes. */
  lemma SaveWritesSnapshot(store: Store, a: Account, now: Ticks)
    requires Save(store, a, now).Ok?
    requires (a.version + |a.uncommitted|) % SnapshotInterval == 0
    ensures var store' := Save(store, a, now).value.store;
            && store'.events == store.events + NewRows(a.state.id, a.uncommitted, a.version, now)
            && a.state.id in store'.snapshots
            && store'.snapshots[a.state.id]
               == SnapshotRecord(a.version + |a.uncommitted|, Some(AccountSnapshot(a.state.id, a.state.balance)), now)
  {
    SavedEvents(store, a, now);
  }

  /** A snapshot of a whole history, holding the balance that history
      replays to, is sound. */
  lemma NewSnapshotSound(store: Store, log: seq<EventRecord>, id: Guid, n: int, balance: real, now: Ticks)
    requires store.events == log
    requires id in store.snapshots
    requires store.snapshots[id] == SnapshotRecord(n, Some(AccountSnapshot(id, balance)), now)
    requires 0 <= n == |History(log, id)|
    requires Net(DecodeAll(HistoryUpTo(log, id, n))) == balance
    ensures SnapshotSound(store, id)
  {
  }

  /** After the save, the saved aggregate's history is as long as its
      version plus the events it saved. */
  lemma SavedHistoryLength(store: Store, a: Account, now: Ticks)
    requires WellFormed(store) && Contiguous(store) && Synced(store, a)
    requires Save(store, a, now).Ok?
    ensures |History(Save(store, a, now).value.store.events, a.state.id)| == a.version + |a.uncommitted|
  {
    SavedEvents(store, a, now);
    HistoryAfterSave(store, a, now);
  }

  /** After the save, the saved aggregate's full history replays to its balance. */
  lemma SavedFullReplay(store: Store, a: Account, now: Ticks)
    requires WellFormed(store) && Contiguous(store) && Synced(store, a)
    requires Save(store, a, now).Ok?
    ensures FullReplay(Save(store, a, now).value.store, a.state.id).balance == a.state.balance
  {
    SavedEvents(store, a, now);
    HistoryAfterSave(store, a, now);
    SavedBalance(store, a, now);
  }

  lemma SaveKeepsNonNegative(store: Store, a: Account, now: Ticks)
    requires WellFormed(store) && Contiguous(store) && BalancesNonNegative(store) && Synced(store, a)
    requires a.state.balance >= 0.0
    requires Save(store, a, now).Ok?
    ensures BalancesNonNegative(Save(store, a, now).value.store)
  {
    var id := a.state.id;
    var rows := NewRows(id, a.uncommitted, a.version, now);
    var store' := Save(store, a, now).value.store;
    SavedEvents(store, a, now);
    SavedFullReplay(store, a, now);
    forall other | other != id
      ensures FullReplay(store', other).balance >= 0.0
    {
      OtherHistoriesUnchanged(store.events, rows, id, other);
      assert FullReplay(store, other).balance >= 0.0;
    }
  }

  /** Saving an aggregate that is in step with a consistent store, and whose
      balance is non-negative, succeeds and leaves the store consistent. */
  lemma SaveKeepsConsistent(store: Store, a: Account, now: Ticks)
    requires Consistent(store) && Synced(store, a)
    requires a.state.balance >= 0.0
    ensures Save(store, a, now).Ok?
    ensures Consistent(Save(store, a, now).value.store)
  {
    SyncedSaveSucceeds(store, a, now);
    SaveKeepsKeysUnique(store, a, now);
    SaveKeepsRowsWellFormed(store, a, now);
    SaveKeepsSnapshots(store, a, now);
    SaveKeepsContiguous(store, a, now);
    SaveKeepsNonNegative(store, a, now);
  }
}
