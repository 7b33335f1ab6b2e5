/** The `Events` table: stored event rows in insertion order, the decoding of
    their payloads, and the `Where(...).OrderBy(e => e.Version)` query of
    `LoadAsync` as a filter followed by an insertion sort on `Version`. */
module EventLog {
  import opened Common
  import opened Domain

  /** A stored payload: the serialised change with its type name, or a row
      whose type cannot be resolved or whose data deserialises to null. */
  datatype Payload = Encoded(change: Change) | Undecodable

  /** An `EventEntity` row (its random primary key is not modelled). */
  datatype EventRecord = EventRecord(aggregateId: Guid, data: Payload, occurredOn: Ticks, version: int)

  /** The rows of aggregate `id`, in table order. */
  function OfAggregate(rs: seq<EventRecord>, id: Guid): (r: seq<EventRecord>)
    ensures |r| <= |rs|
  {
    if rs == [] then []
    else if rs[0].aggregateId == id then [rs[0]] + OfAggregate(rs[1..], id)
    else OfAggregate(rs[1..], id)
  }

  /** The rows whose version is greater than `v`, in order. */
  function Above(rs: seq<EventRecord>, v: int): (r: seq<EventRecord>)
    ensures |r| <= |rs|
  {
    if rs == [] then []
    else if rs[0].version > v then [rs[0]] + Above(rs[1..], v)
    else Above(rs[1..], v)
  }

  /** The rows whose version is at most `v`, in order. */
  function AtMost(rs: seq<EventRecord>, v: int): (r: seq<EventRecord>)
    ensures |r| <= |rs|
  {
    if rs == [] then []
    else if rs[0].version <= v then [rs[0]] + AtMost(rs[1..], v)
    else AtMost(rs[1..], v)
  }

  lemma {:induction false} OfAggregateMembers(rs: seq<EventRecord>, id: Guid)
    ensures forall x :: x in OfAggregate(rs, id) <==> x in rs && x.aggregateId == id
  {
    if rs != [] {
      OfAggregateMembers(rs[1..], id);
      assert rs == [rs[0]] + rs[1..];
    }
  }

  lemma {:induction false} AboveMembers(rs: seq<EventRecord>, v: int)
    ensures forall x :: x in Above(rs, v) <==> x in rs && x.version > v
  {
    if rs != [] {
      AboveMembers(rs[1..], v);
      assert rs == [rs[0]] + rs[1..];
    }
  }

  lemma {:induction false} AtMostMembers(rs: seq<EventRecord>, v: int)
    ensures forall x :: x in AtMost(rs, v) <==> x in rs && x.version <= v
  {
    if rs != [] {
      AtMostMembers(rs[1..], v);
      assert rs == [rs[0]] + rs[1..];
    }
  }

  predicate SortedByVersion(rs: seq<EventRecord>)
  {
    forall i, j :: 0 <= i < j < |rs| ==> rs[i].version <= rs[j].version
  }

  /** Insert `x` before the first row whose version is not smaller. */
  function Insert(x: EventRecord, rs: seq<EventRecord>): (r: seq<EventRecord>)
    ensures |r| == |rs| + 1
  {
    if rs == [] || x.version <= rs[0].version then [x] + rs
    else [rs[0]] + Insert(x, rs[1..])
  }

  lemma {:induction false} InsertPermutes(x: EventRecord, rs: seq<EventRecord>)
    ensures multiset(Insert(x, rs)) == multiset{x} + multiset(rs)
  {
    if rs != [] && x.version > rs[0].version {
      InsertPermutes(x, rs[1..]);
      assert rs == [rs[0]] + rs[1..];
    }
  }

  /** A lower bound on the versions of `x` and of `rs` bounds the insertion. */
  lemma {:induction false} InsertAtLeast(x: EventRecord, rs: seq<EventRecord>, b: int)
    requires b <= x.version
    requires forall i :: 0 <= i < |rs| ==> b <= rs[i].version
    ensures forall i :: 0 <= i < |Insert(x, rs)| ==> b <= Insert(x, rs)[i].version
  {
    if rs != [] && x.version > rs[0].version {
      InsertAtLeast(x, rs[1..], b);
      var t := Insert(x, rs[1..]);
      assert forall i :: 1 <= i < |rs| + 1 ==> Insert(x, rs)[i] == t[i - 1];
    }
  }

  lemma {:induction false} InsertSorted(x: EventRecord, rs: seq<EventRecord>)
    requires SortedByVersion(rs)
    ensures SortedByVersion(Insert(x, rs))
  {
    if rs == [] || x.version <= rs[0].version {
    } else {
      var t := Insert(x, rs[1..]);
      InsertSorted(x, rs[1..]);
      InsertAtLeast(x, rs[1..], rs[0].version);
      var r := [rs[0]] + t;
      forall i, j | 0 <= i < j < |r|
        ensures r[i].version <= r[j].version
      {
        assert r[j] == t[j - 1];
        if i > 0 {
          assert r[i] == t[i - 1];
        }
      }
    }
  }

  /** `OrderBy(e => e.Version)`: a sorted permutation of `rs`. */
  function SortByVersion(rs: seq<EventRecord>): (r: seq<EventRecord>)
    ensures |r| == |rs|
  {
    if rs == [] then [] else Insert(rs[0], SortByVersion(rs[1..]))
  }

  /** `SortByVersion` is a permutation of its input ... */
  lemma {:induction false} SortPermutes(rs: seq<EventRecord>)
    ensures multiset(SortByVersion(rs)) == multiset(rs)
  {
    if rs != [] {
      SortPermutes(rs[1..]);
      InsertPermutes(rs[0], SortByVersion(rs[1..]));
      assert rs == [rs[0]] + rs[1..];
    }
  }

  /** ... and its result is ascending by version. */
  lemma {:induction false} SortIsSorted(rs: seq<EventRecord>)
    ensures SortedByVersion(SortByVersion(rs))
  {
    if rs != [] {
      SortIsSorted(rs[1..]);
      InsertSorted(rs[0], SortByVersion(rs[1..]));
    }
  }

  /** The rows `LoadAsync` reads: aggregate `id`, version above `start`,
      ascending by version. */
  function Query(log: seq<EventRecord>, id: Guid, start: int): seq<EventRecord>
  {
    SortByVersion(Above(OfAggregate(log, id), start))
  }

  /** The whole stored history of `id`, ascending by version. */
  function History(log: seq<EventRecord>, id: Guid): seq<EventRecord>
  {
    Query(log, id, 0)
  }

  /** The stored history of `id` up to and including version `v`. */
  function HistoryUpTo(log: seq<EventRecord>, id: Guid, v: int): seq<EventRecord>
  {
    SortByVersion(AtMost(Above(OfAggregate(log, id), 0), v))
  }

  function Decode(p: Payload): Option<Change>
  {
    match p
    case Encoded(c) => Some(c)
    case Undecodable => None
  }

  /** How many of `rs` decode. */
  function CountEncoded(rs: seq<EventRecord>): nat
  {
    if rs == [] then 0
    else CountEncoded(rs[..|rs| - 1]) + (if rs[|rs| - 1].data.Encoded? then 1 else 0)
  }

  /** The changes of the rows that decode, in row order; rows that do not
      decode are skipped. */
  function DecodeAll(rs: seq<EventRecord>): (r: seq<Change>)
    ensures |r| <= |rs|
    ensures (forall i :: 0 <= i < |rs| ==> rs[i].data.Encoded?) ==> |r| == |rs|
    ensures (forall i :: 0 <= i < |rs| ==> rs[i].data.Encoded?) ==>
              forall i :: 0 <= i < |rs| ==> r[i] == rs[i].data.change
    ensures (exists i :: 0 <= i < |rs| && rs[i].data.Undecodable?) ==> |r| < |rs|
  {
    if rs == [] then []
    else
      var rest := DecodeAll(rs[1..]);
      assert (exists i :: 0 <= i < |rs| && rs[i].data.Undecodable?) && rs[0].data.Encoded?
             ==> exists i :: 0 <= i < |rs[1..]| && rs[1..][i].data.Undecodable? by {
        if (exists i :: 0 <= i < |rs| && rs[i].data.Undecodable?) && rs[0].data.Encoded? {
          var i :| 0 <= i < |rs| && rs[i].data.Undecodable?;
          assert rs[1..][i - 1] == rs[i];
        }
      }
      match rs[0].data
      case Encoded(c) => [c] + rest
      case Undecodable => rest
  }

  lemma {:induction false} DecodeAllAppend(xs: seq<EventRecord>, ys: seq<EventRecord>)
    ensures DecodeAll(xs + ys) == DecodeAll(xs) + DecodeAll(ys)
  {
    if xs == [] {
      assert xs + ys == ys;
    } else {
      assert (xs + ys)[1..] == xs[1..] + ys;
      DecodeAllAppend(xs[1..], ys);
    }
  }

  /** Decoding keeps exactly the rows that decode, in order: together with
      `DecodeAll([]) == []`, this fixes `DecodeAll` on every log. */
  lemma DecodeAllSnoc(rs: seq<EventRecord>, x: EventRecord)
    ensures DecodeAll(rs + [x]) == DecodeAll(rs) + (if x.data.Encoded? then [x.data.change] else [])
  {
    DecodeAllAppend(rs, [x]);
    assert [x][1..] == [];
  }

  /** One change per row that decodes. */
  lemma {:induction false} DecodedCount(rs: seq<EventRecord>)
    ensures |DecodeAll(rs)| == CountEncoded(rs)
    decreases |rs|
  {
    if rs != [] {
      var init := rs[..|rs| - 1];
      assert rs == init + [rs[|rs| - 1]];
      DecodeAllSnoc(init, rs[|rs| - 1]);
      DecodedCount(init);
    }
  }

  /** Filtering by a lower version bound commutes with sorting. */
  lemma {:induction false} AboveInsert(x: EventRecord, rs: seq<EventRecord>, v: int)
    requires SortedByVersion(rs)
    ensures Above(Insert(x, rs), v) == if x.version > v then Insert(x, Above(rs, v)) else Above(rs, v)
  {
    if rs == [] || x.version <= rs[0].version {
      assert ([x] + rs)[1..] == rs;
      if x.version > v && Above(rs, v) != [] {
        AboveMembers(rs, v);
        assert Above(rs, v)[0] in rs;
      }
    } else {
      var t := Insert(x, rs[1..]);
      assert ([rs[0]] + t)[1..] == t;
      AboveInsert(x, rs[1..], v);
      assert rs == [rs[0]] + rs[1..];
    }
  }

  lemma {:induction false} SortAbove(rs: seq<EventRecord>, v: int)
    ensures SortByVersion(Above(rs, v)) == Above(SortByVersion(rs), v)
  {
    if rs != [] {
      SortAbove(rs[1..], v);
      SortIsSorted(rs[1..]);
      AboveInsert(rs[0], SortByVersion(rs[1..]), v);
    }
  }

  /** Filtering by an upper version bound commutes with sorting. */
  lemma {:induction false} AtMostInsert(x: EventRecord, rs: seq<EventRecord>, v: int)
    requires SortedByVersion(rs)
    ensures AtMost(Insert(x, rs), v) == if x.version <= v then Insert(x, AtMost(rs, v)) else AtMost(rs, v)
  {
    if rs == [] || x.version <= rs[0].version {
      assert ([x] + rs)[1..] == rs;
      if x.version <= v && AtMost(rs, v) != [] {
        AtMostMembers(rs, v);
        assert AtMost(rs, v)[0] in rs;
      }
    } else {
      var t := Insert(x, rs[1..]);
      assert ([rs[0]] + t)[1..] == t;
      AtMostInsert(x, rs[1..], v);
      assert rs == [rs[0]] + rs[1..];
    }
  }

  lemma {:induction false} SortAtMost(rs: seq<EventRecord>, v: int)
    ensures SortByVersion(AtMost(rs, v)) == AtMost(SortByVersion(rs), v)
  {
    if rs != [] {
      SortAtMost(rs[1..], v);
      SortIsSorted(rs[1..]);
      AtMostInsert(rs[0], SortByVersion(rs[1..]), v);
    }
  }

  lemma {:induction false} AboveAbove(rs: seq<EventRecord>, u: int, v: int)
    requires u <= v
    ensures Above(Above(rs, u), v) == Above(rs, v)
  {
    if rs != [] {
      AboveAbove(rs[1..], u, v);
    }
  }

  /** A sorted sequence is its rows up to `v` followed by its rows above `v`. */
  lemma {:induction false} SortedSplit(rs: seq<EventRecord>, v: int)
    requires SortedByVersion(rs)
    ensures rs == AtMost(rs, v) + Above(rs, v)
  {
    if rs != [] {
      SortedSplit(rs[1..], v);
      if rs[0].version > v {
        AtMostMembers(rs[1..], v);
      }
      assert rs == [rs[0]] + rs[1..];
    }
  }

  /** The stored history of `id` is the history up to `v` followed by what
      `LoadAsync` queries when it starts after version `v`. */
  lemma HistorySplit(log: seq<EventRecord>, id: Guid, v: int)
    requires v >= 0
    ensures HistoryUpTo(log, id, v) == AtMost(History(log, id), v)
    ensures Query(log, id, v) == Above(History(log, id), v)
    ensures History(log, id) == HistoryUpTo(log, id, v) + Query(log, id, v)
  {
    var xs := Above(OfAggregate(log, id), 0);
    SortIsSorted(xs);
    SortedSplit(SortByVersion(xs), v);
    SortAtMost(xs, v);
    SortAbove(xs, v);
    AboveAbove(OfAggregate(log, id), 0, v);
  }

  lemma {:induction false} OfAggregateAppend(xs: seq<EventRecord>, ys: seq<EventRecord>, id: Guid)
    ensures OfAggregate(xs + ys, id) == OfAggregate(xs, id) + OfAggregate(ys, id)
  {
    if xs == [] {
      assert xs + ys == ys;
    } else {
      assert (xs + ys)[1..] == xs[1..] + ys;
      OfAggregateAppend(xs[1..], ys, id);
    }
  }

  lemma {:induction false} AboveAppend(xs: seq<EventRecord>, ys: seq<EventRecord>, v: int)
    ensures Above(xs + ys, v) == Above(xs, v) + Above(ys, v)
  {
    if xs == [] {
      assert xs + ys == ys;
    } else {
      assert (xs + ys)[1..] == xs[1..] + ys;
      AboveAppend(xs[1..], ys, v);
    }
  }

  lemma {:induction false} AtMostAppend(xs: seq<EventRecord>, ys: seq<EventRecord>, v: int)
    ensures AtMost(xs + ys, v) == AtMost(xs, v) + AtMost(ys, v)
  {
    if xs == [] {
      assert xs + ys == ys;
    } else {
      assert (xs + ys)[1..] == xs[1..] + ys;
      AtMostAppend(xs[1..], ys, v);
    }
  }

  /** Filtering keeps every row when every row passes. */
  lemma {:induction false} OfAggregateAll(rs: seq<EventRecord>, id: Guid)
    requires forall i :: 0 <= i < |rs| ==> rs[i].aggregateId == id
    ensures OfAggregate(rs, id) == rs
  {
    if rs != [] {
      OfAggregateAll(rs[1..], id);
    }
  }

  lemma {:induction false} OfAggregateNone(rs: seq<EventRecord>, id: Guid)
    requires forall i :: 0 <= i < |rs| ==> rs[i].aggregateId != id
    ensures OfAggregate(rs, id) == []
  {
    if rs != [] {
      OfAggregateNone(rs[1..], id);
    }
  }

  lemma {:induction false} AboveAll(rs: seq<EventRecord>, v: int)
    requires forall i :: 0 <= i < |rs| ==> rs[i].version > v
    ensures Above(rs, v) == rs
  {
    if rs != [] {
      AboveAll(rs[1..], v);
    }
  }

  lemma {:induction false} AtMostNone(rs: seq<EventRecord>, v: int)
    requires forall i :: 0 <= i < |rs| ==> rs[i].version > v
    ensures AtMost(rs, v) == []
  {
    if rs != [] {
      AtMostNone(rs[1..], v);
    }
  }

  /** Sorting leaves a sorted sequence as it is. */
  lemma {:induction false} SortSorted(rs: seq<EventRecord>)
    requires SortedByVersion(rs)
    ensures SortByVersion(rs) == rs
  {
    if rs != [] {
      SortSorted(rs[1..]);
    }
  }

  /** Inserting a row below every row of `zs` does not reach into `zs`. */
  lemma {:induction false} InsertBelow(x: EventRecord, ps: seq<EventRecord>, zs: seq<EventRecord>)
    requires forall i :: 0 <= i < |zs| ==> x.version < zs[i].version
    ensures Insert(x, ps + zs) == Insert(x, ps) + zs
  {
    if ps == [] {
      assert ps + zs == zs;
    } else if x.version <= ps[0].version {
      assert (ps + zs)[0] == ps[0];
    } else {
      assert (ps + zs)[0] == ps[0];
      assert (ps + zs)[1..] == ps[1..] + zs;
      InsertBelow(x, ps[1..], zs);
    }
  }

  /** Appending sorted rows above every existing version appends them to the order. */
  lemma {:induction false} SortAppendAbove(ys: seq<EventRecord>, zs: seq<EventRecord>)
    requires SortedByVersion(zs)
    requires forall i, j :: 0 <= i < |ys| && 0 <= j < |zs| ==> ys[i].version < zs[j].version
    ensures SortByVersion(ys + zs) == SortByVersion(ys) + zs
  {
    if ys == [] {
      assert ys + zs == zs;
      SortSorted(zs);
    } else {
      assert (ys + zs)[0] == ys[0];
      assert (ys + zs)[1..] == ys[1..] + zs;
      SortAppendAbove(ys[1..], zs);
      assert forall j :: 0 <= j < |zs| ==> ys[0].version < zs[j].version;
      InsertBelow(ys[0], SortByVersion(ys[1..]), zs);
    }
  }

  /** Rows numbered `off + 1, off + 2, ...` split at `k` by position. */
  lemma {:induction false} NumberedSplit(rs: seq<EventRecord>, off: int, k: int)
    requires forall i :: 0 <= i < |rs| ==> rs[i].version == off + i + 1
    requires off <= k <= off + |rs|
    ensures AtMost(rs, k) == rs[..k - off]
    ensures Above(rs, k) == rs[k - off..]
  {
    if rs != [] {
      if k == off {
        AtMostNone(rs, k);
        AboveAll(rs, k);
      } else {
        NumberedSplit(rs[1..], off + 1, k);
        assert rs[1..][..k - off - 1] == rs[1..k - off];
        assert rs[..k - off] == [rs[0]] + rs[1..k - off];
        assert rs[1..][k - off - 1..] == rs[k - off..];
      }
    }
  }
}
