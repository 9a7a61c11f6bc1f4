/**
 The golden book: the live and history tiers, and the only changes that ever reach them
 (app/services/pipeline.py, `_apply_insert`, `_apply_update`, `_apply_delete`, `_write_history`).
 A log of approved changes is replayed from the empty book; nothing here knows about
 landing, staging or review.
 */
module Ledger {
  import opened Common
  import opened Values

  datatype ChangeKind = Updated | Deleted

  datatype GoldenRow = GoldenRow(
    values: Row,
    version: nat,
    source: Option<string>,
    deleted: bool,
    deletedAt: Option<Time>,
    createdAt: Time,
    createdBy: string,
    updatedAt: Time,
    updatedBy: string,
    approvedBy: string,
    stagingId: nat)

  datatype HistoryRow = HistoryRow(
    id: RecordId,
    version: nat,
    kind: ChangeKind,
    validFrom: Time,
    validTo: Time,
    changedBy: string,
    source: Option<string>,
    deleted: bool,
    stagingId: nat,
    values: Row)

  datatype Book = Book(live: map<RecordId, GoldenRow>, history: seq<HistoryRow>)

  /** One approved change. An `Amend` with nothing to set is the "no_change" outcome. */
  datatype Change =
    | Insert(id: RecordId, values: Row, actor: string, stagingId: nat, source: Option<string>)
    | Amend(id: RecordId, sets: Row, actor: string, stagingId: nat)
    | SoftDelete(id: RecordId, actor: string)
    | HardDelete(id: RecordId, actor: string)

  datatype Entry = Entry(at: Time, change: Change)

  const EMPTY := Book(map[], [])

  /** Every record id the book has ever mentioned. */
  function Known(b: Book): set<RecordId> {
    b.live.Keys + (set h | h in b.history :: h.id)
  }

  /** A generated id is new; every other change needs its golden record to be there. */
  predicate Enabled(b: Book, c: Change) {
    if c.Insert? then c.id !in Known(b) else c.id in b.live
  }

  function FreshRow(at: Time, c: Change): GoldenRow
    requires c.Insert?
  {
    GoldenRow(c.values, 1, c.source, false, None, at, c.actor, at, c.actor, c.actor, c.stagingId)
  }

  /** The pre-change snapshot that every update and delete leaves behind. */
  function Snapshot(id: RecordId, row: GoldenRow, kind: ChangeKind, at: Time, actor: string): HistoryRow {
    HistoryRow(id, row.version, kind, row.updatedAt, at, actor, row.source, row.deleted, row.stagingId, row.values)
  }

  /** The live row after an update; nothing to set leaves it alone, version included. */
  function AmendedRow(row: GoldenRow, at: Time, sets: Row, actor: string, stagingId: nat): GoldenRow {
    if sets == map[] then row
    else row.(values := row.values + sets, version := row.version + 1, updatedAt := at,
              updatedBy := actor, approvedBy := actor, stagingId := stagingId)
  }

  function RetiredRow(row: GoldenRow, at: Time, actor: string): GoldenRow {
    row.(deleted := true, deletedAt := Some(at), version := row.version + 1, updatedAt := at,
         updatedBy := actor, approvedBy := actor)
  }

  function Apply(b: Book, at: Time, c: Change): Book {
    if !Enabled(b, c) then b
    else match c
      case Insert(id, _, _, _, _) => b.(live := b.live[id := FreshRow(at, c)])
      case Amend(id, sets, actor, sid) =>
        Book(b.live[id := AmendedRow(b.live[id], at, sets, actor, sid)],
             b.history + [Snapshot(id, b.live[id], Updated, at, actor)])
      case SoftDelete(id, actor) =>
        Book(b.live[id := RetiredRow(b.live[id], at, actor)],
             b.history + [Snapshot(id, b.live[id], Deleted, at, actor)])
      case HardDelete(id, actor) =>
        Book(b.live - {id}, b.history + [Snapshot(id, b.live[id], Deleted, at, actor)])
  }

  function Replay(log: seq<Entry>): Book {
    if log == [] then EMPTY
    else Apply(Replay(log[..|log| - 1]), log[|log| - 1].at, log[|log| - 1].change)
  }

  ghost predicate Sorted(log: seq<Entry>) {
    forall i, j :: 0 <= i < j < |log| ==> log[i].at <= log[j].at
  }

  /** The entries made no later than t, for a log in time order. */
  function Upto(log: seq<Entry>, t: Time): seq<Entry> {
    if log == [] then []
    else if log[|log| - 1].at <= t then log
    else Upto(log[..|log| - 1], t)
  }

  /** The book as it stood at time t. */
  function AsOf(log: seq<Entry>, t: Time): Book {
    Replay(Upto(log, t))
  }

  /** The history row h says what the live row looked like. */
  predicate Records(h: HistoryRow, row: GoldenRow) {
    && h.version == row.version && h.values == row.values && h.deleted == row.deleted
    && h.source == row.source && h.stagingId == row.stagingId && h.validFrom == row.updatedAt
  }

  predicate Covers(h: HistoryRow, id: RecordId, t: Time) {
    h.id == id && h.validFrom <= t < h.validTo
  }

  ghost predicate Covered(b: Book, id: RecordId, t: Time) {
    exists h :: h in b.history && Covers(h, id, t)
  }

  // ---------------------------------------------------------------- point in time

  ghost predicate Timely(log: seq<Entry>, b: Book) {
    && (forall id :: id in b.live ==> b.live[id].createdAt <= b.live[id].updatedAt)
    && (forall id :: id in b.live && log != [] ==> b.live[id].updatedAt <= log[|log| - 1].at)
    && (log == [] ==> b == EMPTY)
  }

  /** A live row has been the record's state ever since its last update. */
  ghost predicate LiveIsCurrent(log: seq<Entry>, b: Book) {
    forall id, t :: id in b.live && b.live[id].updatedAt <= t
      ==> id in AsOf(log, t).live && AsOf(log, t).live[id] == b.live[id]
  }

  /** A history row tells the record's state throughout its validity interval. */
  ghost predicate HistoryIsTrue(log: seq<Entry>, b: Book) {
    forall h, t :: h in b.history && h.validFrom <= t < h.validTo
      ==> h.id in AsOf(log, t).live && Records(h, AsOf(log, t).live[h.id])
  }

  /** Whatever existed at t is still told by history or by the live row. */
  ghost predicate NothingForgotten(log: seq<Entry>, b: Book) {
    forall id, t :: id in AsOf(log, t).live
      ==> Covered(b, id, t) || (id in b.live && b.live[id].updatedAt <= t)
  }

  /** Looking back from one entry later changes the answer only from that entry on. */
  lemma AsOfExtended(before: seq<Entry>, last: Entry, t: Time)
    ensures AsOf(before + [last], t) == if last.at <= t then Replay(before + [last]) else AsOf(before, t)
    ensures Replay(before + [last]) == Apply(Replay(before), last.at, last.change)
  {
    assert (before + [last])[..|before|] == before;
  }

  lemma TimelyStep(before: seq<Entry>, last: Entry)
    requires Sorted(before + [last]) && Timely(before, Replay(before))
    ensures Timely(before + [last], Replay(before + [last]))
  {
    AsOfExtended(before, last, last.at);
    assert before != [] ==> (before + [last])[|before| - 1].at <= (before + [last])[|before|].at;
    hide AsOf, Replay;
  }

  lemma LiveIsCurrentStep(before: seq<Entry>, last: Entry)
    requires LiveIsCurrent(before, Replay(before))
    ensures LiveIsCurrent(before + [last], Replay(before + [last]))
  {
    var log, b0, b := before + [last], Replay(before), Replay(before + [last]);
    AsOfExtended(before, last, last.at);
    hide AsOf, Replay;
    forall id, t | id in b.live && b.live[id].updatedAt <= t
      ensures id in AsOf(log, t).live && AsOf(log, t).live[id] == b.live[id]
    {
      AsOfExtended(before, last, t);
      if t < last.at {
        assert id in b0.live && b0.live[id] == b.live[id];
      }
    }
  }

  /** No history row claims to be valid past the entry that wrote it. */
  ghost predicate Closed(log: seq<Entry>, b: Book) {
    forall h :: h in b.history ==> log != [] && h.validTo <= log[|log| - 1].at
  }

  lemma HistoryIsTrueStep(before: seq<Entry>, last: Entry)
    requires LiveIsCurrent(before, Replay(before)) && HistoryIsTrue(before, Replay(before))
    requires Closed(before, Replay(before))
    requires Sorted(before + [last])
    ensures HistoryIsTrue(before + [last], Replay(before + [last])) && Closed(before + [last], Replay(before + [last]))
  {
    var log, b0, b := before + [last], Replay(before), Replay(before + [last]);
    AsOfExtended(before, last, last.at);
    assert before != [] ==> log[|before| - 1].at <= log[|before|].at;
    assert forall h :: h in b.history ==> h.validTo <= last.at;
    hide AsOf, Replay;
    forall h, t | h in b.history && h.validFrom <= t < h.validTo
      ensures h.id in AsOf(log, t).live && Records(h, AsOf(log, t).live[h.id])
    {
      AsOfExtended(before, last, t);
      if h in b0.history {
        assert h.id in AsOf(before, t).live && Records(h, AsOf(before, t).live[h.id]);
      } else {
        assert h.id in b0.live && Records(h, b0.live[h.id]);
      }
    }
  }

  lemma NothingForgottenStep(before: seq<Entry>, last: Entry)
    requires NothingForgotten(before, Replay(before))
    requires Timely(before + [last], Replay(before + [last]))
    ensures NothingForgotten(before + [last], Replay(before + [last]))
  {
    var log, b0, b := before + [last], Replay(before), Replay(before + [last]);
    forall id, t | id in AsOf(log, t).live
      ensures Covered(b, id, t) || (id in b.live && b.live[id].updatedAt <= t)
    {
      AsOfExtended(before, last, t);
      if t < last.at {
        if Covered(b0, id, t) {
          var h :| h in b0.history && Covers(h, id, t);
          assert h in b.history;
        } else if Enabled(b0, last.change) && last.change.id == id {
          assert Covers(b.history[|b.history| - 1], id, t);
        }
      }
    }
  }

  lemma {:induction false} PointInTimeInvariant(log: seq<Entry>)
    requires Sorted(log)
    ensures Timely(log, Replay(log)) && Closed(log, Replay(log))
    ensures LiveIsCurrent(log, Replay(log))
    ensures HistoryIsTrue(log, Replay(log))
    ensures NothingForgotten(log, Replay(log))
  {
    if log == [] {
    } else {
      var before, last := log[..|log| - 1], log[|log| - 1];
      assert log == before + [last];
      PointInTimeInvariant(before);
      TimelyStep(before, last);
      LiveIsCurrentStep(before, last);
      HistoryIsTrueStep(before, last);
      NothingForgottenStep(before, last);
    }
  }

  /**
   Point-in-time reconstruction. A record existed at t exactly when a history row is valid
   at t or its live row has been in force since before t, and whichever of those rows one
   reads, it tells the record's state at t.
   */
  lemma PointInTime(log: seq<Entry>, id: RecordId, t: Time)
    requires Sorted(log)
    ensures id in AsOf(log, t).live
       <==> Covered(Replay(log), id, t) || (id in Replay(log).live && Replay(log).live[id].updatedAt <= t)
    ensures forall h :: h in Replay(log).history && Covers(h, id, t) ==> Records(h, AsOf(log, t).live[id])
    ensures id in Replay(log).live && Replay(log).live[id].updatedAt <= t
       ==> Replay(log).live[id] == AsOf(log, t).live[id]
  {
    PointInTimeInvariant(log);
  }

  // ---------------------------------------------------------------- version chain

  ghost predicate HasVersion(b: Book, id: RecordId, v: nat) {
    exists h :: h in b.history && h.id == id && h.version == v
  }

  /** Version numbers start at 1 and history stays below the live row, or repeats it. */
  ghost predicate Bounded(b: Book) {
    && (forall id :: id in b.live ==> b.live[id].version >= 1)
    && (forall h :: h in b.history ==> h.version >= 1)
    && (forall h :: h in b.history && h.id in b.live ==> h.version <= b.live[h.id].version)
    && (forall h :: h in b.history && h.id in b.live && h.version == b.live[h.id].version ==> Records(h, b.live[h.id]))
  }

  /** Every version a live row has left behind is in history. */
  ghost predicate Gapless(b: Book) {
    forall id, v: nat :: id in b.live && 1 <= v < b.live[id].version ==> HasVersion(b, id, v)
  }

  /** The versions of a record in history are exactly 1..n. */
  ghost predicate VersionsAre(b: Book, id: RecordId, n: nat) {
    forall v: nat :: HasVersion(b, id, v) <==> 1 <= v <= n
  }

  /** The book's past is never rewritten. */
  lemma HistoryGrows(b: Book, at: Time, c: Change)
    ensures b.history <= Apply(b, at, c).history
    ensures Known(b) <= Known(Apply(b, at, c))
    ensures forall id, v: nat :: HasVersion(b, id, v) ==> HasVersion(Apply(b, at, c), id, v)
  {
    var b' := Apply(b, at, c);
    forall id, v: nat | HasVersion(b, id, v)
      ensures HasVersion(b', id, v)
    {
      var h :| h in b.history && h.id == id && h.version == v;
      assert h in b'.history;
    }
    forall id | id in Known(b)
      ensures id in Known(b')
    {
      if h :| h in b.history && h.id == id {
        assert h in b'.history;
      } else {
        assert id !in b'.live ==> b'.history[|b'.history| - 1].id == id;
      }
    }
  }

  /** Only an insertion makes a new id known. */
  lemma KnownAfter(b: Book, at: Time, c: Change)
    requires Enabled(b, c)
    ensures Known(Apply(b, at, c)) == if c.Insert? then Known(b) + {c.id} else Known(b)
  {
    hide FreshRow, AmendedRow, RetiredRow;
    var b' := Apply(b, at, c);
    HistoryGrows(b, at, c);
    forall id | id in Known(b')
      ensures id in Known(b) || id == c.id
    {
      if h :| h in b'.history && h.id == id {
        assert h in b.history || id == c.id;
      }
    }
  }

  /** An enabled change adds either a new record id or a history row. */
  lemma ChangeCounts(b: Book, at: Time, c: Change)
    requires Enabled(b, c)
    ensures |Known(Apply(b, at, c))| + |Apply(b, at, c).history| == |Known(b)| + |b.history| + 1
  {
    hide Known, FreshRow, AmendedRow, RetiredRow, Snapshot;
    KnownAfter(b, at, c);
    if c.Insert? {
      FreshIsUnknown(b, c);
    }
  }

  lemma FreshIsUnknown(b: Book, c: Change)
    requires Enabled(b, c) && c.Insert?
    ensures c.id !in Known(b)
  {
  }

  lemma BoundedStep(b: Book, at: Time, c: Change)
    requires Bounded(b)
    ensures Bounded(Apply(b, at, c))
  {
  }

  lemma GaplessStep(b: Book, at: Time, c: Change)
    requires Gapless(b)
    ensures Gapless(Apply(b, at, c))
  {
    var b' := Apply(b, at, c);
    HistoryGrows(b, at, c);
    forall id, v: nat | id in b'.live && 1 <= v < b'.live[id].version
      ensures HasVersion(b', id, v)
    {
      if id in b.live && v < b.live[id].version {
        assert HasVersion(b, id, v);
      } else {
        assert b'.history[|b'.history| - 1] in b'.history;
      }
    }
  }

  /** The row can be read: it is still the live row, or a history row records it. */
  ghost predicate OnRecord(b: Book, id: RecordId, row: GoldenRow) {
    (id in b.live && b.live[id] == row) || exists h :: h in b.history && h.id == id && Records(h, row)
  }

  /**
   A live row seen at some point stays on record, and the last word on its version: whatever happens
   later, history rows of that version repeat it and the live row differs only under a higher version.
   */
  ghost predicate Remembers(b: Book, id: RecordId, row: GoldenRow) {
    && OnRecord(b, id, row)
    && id in Known(b)
    && (id in b.live ==> row.version <= b.live[id].version)
    && (id in b.live && row.version == b.live[id].version ==> b.live[id] == row)
    && (forall h :: h in b.history && h.id == id && h.version == row.version ==> Records(h, row))
  }

  lemma OnRecordStep(b: Book, at: Time, c: Change, id: RecordId, row: GoldenRow)
    requires OnRecord(b, id, row)
    ensures OnRecord(Apply(b, at, c), id, row)
  {
    var b' := Apply(b, at, c);
    HistoryGrows(b, at, c);
    if h :| h in b.history && h.id == id && Records(h, row) {
      assert h in b'.history;
    } else if Enabled(b, c) && c.id == id && !c.Insert? {
      assert Records(b'.history[|b'.history| - 1], row);
    } else {
      assert id in b'.live && b'.live[id] == row;
    }
  }

  lemma RemembersStep(b: Book, at: Time, c: Change, id: RecordId, row: GoldenRow)
    requires Remembers(b, id, row)
    ensures Remembers(Apply(b, at, c), id, row)
  {
    HistoryGrows(b, at, c);
    OnRecordStep(b, at, c, id, row);
    hide OnRecord;
  }

  lemma {:induction false} VersionChain(log: seq<Entry>)
    ensures Bounded(Replay(log)) && Gapless(Replay(log))
    ensures forall k, id :: 0 <= k <= |log| && id in Replay(log[..k]).live
              ==> Remembers(Replay(log), id, Replay(log[..k]).live[id])
  {
    if log == [] {
    } else {
      var before, last := log[..|log| - 1], log[|log| - 1];
      VersionChain(before);
      BoundedStep(Replay(before), last.at, last.change);
      GaplessStep(Replay(before), last.at, last.change);
      forall k, id | 0 <= k <= |log| && id in Replay(log[..k]).live
        ensures Remembers(Replay(log), id, Replay(log[..k]).live[id])
      {
        if k < |log| {
          assert log[..k] == before[..k];
          RemembersStep(Replay(before), last.at, last.change, id, Replay(log[..k]).live[id]);
        } else {
          assert log[..k] == log;
        }
      }
    }
  }

  /** Two history rows of one record and version tell the same story. */
  lemma {:induction false} SameVersionSameRow(log: seq<Entry>, h: HistoryRow, g: HistoryRow)
    requires h in Replay(log).history && g in Replay(log).history
    requires h.id == g.id && h.version == g.version
    ensures h.values == g.values && h.deleted == g.deleted && h.source == g.source
    ensures h.stagingId == g.stagingId && h.validFrom == g.validFrom
  {
    var before, last := log[..|log| - 1], log[|log| - 1];
    VersionChain(before);
    var b0 := Replay(before);
    if h in b0.history && g in b0.history {
      SameVersionSameRow(before, h, g);
    }
  }

  /** The chain closes when the live row goes: its last version joins the ones left behind. */
  lemma ChainCloses(b: Book, at: Time, id: RecordId, actor: string)
    requires Bounded(b) && Gapless(b) && id in b.live
    ensures VersionsAre(Apply(b, at, HardDelete(id, actor)), id, b.live[id].version)
  {
    var c := HardDelete(id, actor);
    var b', n := Apply(b, at, c), b.live[id].version;
    HistoryGrows(b, at, c);
    assert b'.history[|b'.history| - 1] in b'.history;
    forall v: nat ensures HasVersion(b', id, v) <==> 1 <= v <= n {
      if 1 <= v < n {
        assert HasVersion(b, id, v);
      }
    }
  }

  /** A record that is gone is never touched again. */
  lemma GoneStaysGone(b: Book, at: Time, c: Change, id: RecordId, n: nat)
    requires id in Known(b) && id !in b.live && VersionsAre(b, id, n)
    ensures id in Known(Apply(b, at, c)) && id !in Apply(b, at, c).live && VersionsAre(Apply(b, at, c), id, n)
  {
    var b' := Apply(b, at, c);
    HistoryGrows(b, at, c);
    forall v: nat ensures HasVersion(b', id, v) <==> 1 <= v <= n {
      if h :| h in b'.history && h.id == id && h.version == v {
        assert h in b.history;
        assert HasVersion(b, id, v);
      }
    }
  }

  /** After a hard delete at version n, history holds exactly the versions 1..n, for good. */
  lemma {:induction false} HardDeletedChain(log: seq<Entry>, k: nat, id: RecordId)
    requires k < |log| && log[k].change.HardDelete? && log[k].change.id == id && id in Replay(log[..k]).live
    ensures id !in Replay(log).live && id in Known(Replay(log))
    ensures VersionsAre(Replay(log), id, Replay(log[..k]).live[id].version)
  {
    var before, last := log[..|log| - 1], log[|log| - 1];
    if k == |log| - 1 {
      VersionChain(before);
      ChainCloses(Replay(before), last.at, id, last.change.actor);
      HistoryGrows(Replay(before), last.at, last.change);
    } else {
      assert before[..k] == log[..k];
      HardDeletedChain(before, k, id);
      GoneStaysGone(Replay(before), last.at, last.change, id, Replay(log[..k]).live[id].version);
    }
  }

  /** Every record that is gone has left a chain without a gap behind. */
  ghost predicate GoneAreComplete(b: Book) {
    forall id :: id in Known(b) && id !in b.live ==> exists n: nat :: n >= 1 && VersionsAre(b, id, n)
  }

  lemma {:induction false} GoneChain(log: seq<Entry>)
    ensures GoneAreComplete(Replay(log))
  {
    if log == [] {
      assert Known(EMPTY) == {};
    } else {
      hide Known, VersionsAre, Bounded, Gapless;
      var before, last := log[..|log| - 1], log[|log| - 1];
      var b, b' := Replay(before), Replay(log);
      GoneChain(before);
      VersionChain(before);
      forall id | id in Known(b') && id !in b'.live
        ensures exists n: nat :: n >= 1 && VersionsAre(b', id, n)
      {
        GoneChainStep(b, last.at, last.change, id);
      }
    }
  }

  lemma GoneChainStep(b: Book, at: Time, c: Change, id: RecordId)
    requires GoneAreComplete(b) && Bounded(b) && Gapless(b)
    requires id in Known(Apply(b, at, c)) && id !in Apply(b, at, c).live
    ensures exists n: nat :: n >= 1 && VersionsAre(Apply(b, at, c), id, n)
  {
    hide VersionsAre, Known;
    if id in b.live {
      assert c.HardDelete? && c.id == id by { hide Bounded, Gapless; }
      ChainCloses(b, at, id, c.actor);
    } else {
      if Enabled(b, c) {
        KnownAfter(b, at, c);
      }
      assert id in Known(b);
      var n: nat :| n >= 1 && VersionsAre(b, id, n);
      GoneStaysGone(b, at, c, id, n);
    }
  }

  /** A live record at version n has left exactly the versions 1..n-1 behind, and perhaps repeated n. */
  lemma LiveChain(log: seq<Entry>, id: RecordId)
    requires id in Replay(log).live
    ensures var n := Replay(log).live[id].version;
      && n >= 1
      && (forall v: nat :: 1 <= v < n ==> HasVersion(Replay(log), id, v))
      && (forall v: nat :: HasVersion(Replay(log), id, v) ==> 1 <= v <= n)
  {
    VersionChain(log);
  }
}
