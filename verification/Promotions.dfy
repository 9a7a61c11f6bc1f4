/**
 What capturing a write and promoting it leave (app/services/pipeline.py `write_to_landing`,
 `promote_landing_to_staging`, `_resolve_target`), told column by column: every value of the rows
 they write, which golden record a row is aimed at, and that nothing else changes.
 */
module Promotions {
  import opened Common
  import opened Values
  import opened EntityModel
  import opened Validation
  import opened Ledger
  import opened Matching
  import opened Pipeline
  import opened GoldenRules
  import opened Conservation

  // ---------------------------------------------------------------- capture

  /** A supported write lands unless its key is taken; an empty key that is taken is a database error. */
  lemma ReceiptMeans(landing: seq<LandingRow>, w: WriteRequest)
    ensures var receipt := Receive(landing, w);
      var taken := w.key.Some? && exists i :: 0 <= i < |landing| && landing[i].key == w.key;
      && (receipt.BadOperation? <==> w.op !in {OpInsert, OpUpdate, OpDelete, OpUpsert})
      && (receipt.Landed? <==> w.op in {OpInsert, OpUpdate, OpDelete, OpUpsert} && !taken)
      && (receipt.KeyClash? <==> w.op in {OpInsert, OpUpdate, OpDelete, OpUpsert} && taken && w.key == Some(""))
      && (receipt.Landed? ==> receipt.landingId == |landing|)
      && (receipt.Deduplicated? ==>
            && w.key != Some("") && receipt.landingId < |landing|
            && landing[receipt.landingId].key == w.key && landing[receipt.landingId].status == receipt.status)
  {
  }

  /** A write that lands is appended as it came, pending; any other leaves every table as it was. */
  lemma CaptureMeans(s: State, now: Time, w: WriteRequest)
    ensures var t := Write(s, now, w);
      && t.staging == s.staging && t.book == s.book && t.batches == s.batches
      && (!Receive(s.landing, w).Landed? ==> t.landing == s.landing)
      && (Receive(s.landing, w).Landed? ==>
            && |t.landing| == |s.landing| + 1 && t.landing[..|s.landing|] == s.landing
            && var row := t.landing[|s.landing|];
            && row.op == w.op && row.payload == w.payload && row.target == w.target && row.source == w.source
            && row.batch == w.batch && row.key == w.key && row.submittedBy == w.submittedBy
            && row.receivedAt == now && row.status == Pending && row.processedAt.None?)
  {
    hide Receive;
  }

  // ---------------------------------------------------------------- the golden record aimed at

  /** An active record whose business key columns all have the values given, none of them null. */
  predicate HoldsKey(e: Entity, live: map<RecordId, GoldenRow>, values: Row, id: RecordId) {
    && id in live && !live[id].deleted
    && forall a :: a in e.attributes && a.businessKey ==>
         a.name in live[id].values && live[id].values[a.name] != Null && live[id].values[a.name] == At(values, a.name)
  }

  /** An active record whose match key columns all read as the values given do. */
  predicate HoldsProbe(e: Entity, live: map<RecordId, GoldenRow>, values: Row, id: RecordId) {
    && id in live && !live[id].deleted
    && forall a :: a in e.attributes && a.matchKey ==>
         ColumnProbe(At(live[id].values, a.name)) == Some(ValueProbe(At(values, a.name)))
  }

  /** The record has attributes of the kind, and a value for each of them. */
  predicate Complete(e: Entity, values: Row, business: bool) {
    && (exists a :: a in e.attributes && (if business then a.businessKey else a.matchKey))
    && forall a :: a in e.attributes && (if business then a.businessKey else a.matchKey) ==>
         a.name in values && values[a.name] != Null
  }

  /** What each key search finds. */
  lemma FoundMeans(e: Entity, live: map<RecordId, GoldenRow>, values: Row, id: RecordId)
    ensures id in ByBusinessKey(e, live, values) <==> HoldsKey(e, live, values, id)
    ensures id in ByMatchKey(e, live, values) <==> HoldsProbe(e, live, values, id)
  {
    hide ColumnProbe, ValueProbe;
  }

  lemma CompleteMeans(e: Entity, values: Row)
    ensures Complete(e, values, true) <==> BusinessKey(e) != [] && HasAll(values, BusinessKey(e))
    ensures Complete(e, values, false) <==> MatchKeys(e) != [] && HasAll(values, MatchKeys(e))
  {
    if BusinessKey(e) != [] {
      assert BusinessKey(e)[0] in BusinessKey(e);
    }
    if MatchKeys(e) != [] {
      assert MatchKeys(e)[0] in MatchKeys(e);
    }
  }

  /** The first attribute of a key is the entity's first one flagged for it. */
  lemma FirstFlagged(attrs: seq<Attribute>, business: bool)
    requires Selected(attrs, business) != []
    ensures exists i :: IsFirst(attrs, business, i) && attrs[i] == Selected(attrs, business)[0]
  {
    var a := attrs[0];
    if if business then a.businessKey else a.matchKey {
      assert IsFirst(attrs, business, 0);
    } else {
      FirstFlagged(attrs[1..], business);
      var i :| IsFirst(attrs[1..], business, i) && attrs[1..][i] == Selected(attrs[1..], business)[0];
      assert IsFirst(attrs, business, i + 1);
    }
  }

  predicate IsFirst(attrs: seq<Attribute>, business: bool, i: int)
    ensures IsFirst(attrs, business, i) ==> 0 <= i < |attrs|
  {
    && 0 <= i < |attrs| && (if business then attrs[i].businessKey else attrs[i].matchKey)
    && forall j :: 0 <= j < i ==> !(if business then attrs[j].businessKey else attrs[j].matchKey)
  }

  /**
   Where a write is aimed. A malformed identifier cannot be resolved; a given one is the target, or
   reported if there is no such record. Without one, a complete business key decides, and only in its
   absence a complete match key: the target is one of the records found, if there are any, and an INSERT
   that finds one is reported under the key's first attribute.
   */
  lemma TargetMeans(e: Entity, live: map<RecordId, GoldenRow>, values: Row, target: Target, op: Operation,
                    pick: Chooser)
    ensures var r := Resolve(e, live, values, target, op, pick);
      && (r.CastFailed? <==> target.Malformed?)
      && (target.Explicit? ==>
            r == if target.id in live then Resolved(Some(target.id), {})
                 else Resolved(None, {Fault("mdm_id", NotFound)}))
      && (target.NoTarget? && Complete(e, values, true) ==>
            && (r.target.Some? ==> HoldsKey(e, live, values, r.target.value))
            && (r.target.None? ==> forall id :: !HoldsKey(e, live, values, id))
            && (if r.target.Some? && op == OpInsert
                then exists i :: IsFirst(e.attributes, true, i) && r.faults == {Fault(e.attributes[i].name, Duplicate)}
                else r.faults == {}))
      && (target.NoTarget? && !Complete(e, values, true) && Complete(e, values, false) ==>
            && (r.target.Some? ==> HoldsProbe(e, live, values, r.target.value))
            && (r.target.None? ==> forall id :: !HoldsProbe(e, live, values, id))
            && (if r.target.Some? && op == OpInsert
                then exists i ::
                       && IsFirst(e.attributes, false, i)
                       && r.faults == {Fault(e.attributes[i].name, ProbableDuplicate)}
                else r.faults == {}))
      && (target.NoTarget? && !Complete(e, values, true) && !Complete(e, values, false) ==> r == Resolved(None, {}))
  {
    if target.NoTarget? {
      hide Resolve, HoldsKey, HoldsProbe, Complete, IsFirst;
      if Complete(e, values, true) {
        KeyTarget(e, live, values, op, pick);
      } else if Complete(e, values, false) {
        ProbeTarget(e, live, values, op, pick);
      } else {
        NothingToGoBy(e, live, values, op, pick);
      }
    }
  }

  lemma KeyTarget(e: Entity, live: map<RecordId, GoldenRow>, values: Row, op: Operation, pick: Chooser)
    requires Complete(e, values, true)
    ensures var r := Resolve(e, live, values, NoTarget, op, pick);
      && r.Resolved? && (r.target.Some? ==> HoldsKey(e, live, values, r.target.value))
      && (r.target.None? ==> forall id :: !HoldsKey(e, live, values, id))
      && (if r.target.Some? && op == OpInsert
          then exists i :: IsFirst(e.attributes, true, i) && r.faults == {Fault(e.attributes[i].name, Duplicate)}
          else r.faults == {})
  {
    CompleteMeans(e, values);
    FirstFlagged(e.attributes, true);
    forall id ensures id in ByBusinessKey(e, live, values) <==> HoldsKey(e, live, values, id) {
      FoundMeans(e, live, values, id);
    }
    hide ByBusinessKey, ByMatchKey, HoldsKey, Complete, HasAll, Selected, IsFirst;
  }

  lemma ProbeTarget(e: Entity, live: map<RecordId, GoldenRow>, values: Row, op: Operation, pick: Chooser)
    requires !Complete(e, values, true) && Complete(e, values, false)
    ensures var r := Resolve(e, live, values, NoTarget, op, pick);
      && r.Resolved? && (r.target.Some? ==> HoldsProbe(e, live, values, r.target.value))
      && (r.target.None? ==> forall id :: !HoldsProbe(e, live, values, id))
      && (if r.target.Some? && op == OpInsert
          then exists i ::
                 && IsFirst(e.attributes, false, i)
                 && r.faults == {Fault(e.attributes[i].name, ProbableDuplicate)}
          else r.faults == {})
  {
    CompleteMeans(e, values);
    FirstFlagged(e.attributes, false);
    forall id ensures id in ByMatchKey(e, live, values) <==> HoldsProbe(e, live, values, id) {
      FoundMeans(e, live, values, id);
    }
    hide ByBusinessKey, ByMatchKey, HoldsProbe, Complete, HasAll, Selected, IsFirst;
  }

  lemma NothingToGoBy(e: Entity, live: map<RecordId, GoldenRow>, values: Row, op: Operation, pick: Chooser)
    requires !Complete(e, values, true) && !Complete(e, values, false)
    ensures Resolve(e, live, values, NoTarget, op, pick) == Resolved(None, {})
  {
    CompleteMeans(e, values);
    hide ByBusinessKey, ByMatchKey, Complete, HasAll, Selected;
  }

  // ---------------------------------------------------------------- the staging row

  /** What a staging column holds: the validated value, or the column's own default if validation gave none. */
  function StagedValue(a: Attribute, values: Row): Value {
    if a.name in values then values[a.name] else a.ddlDefault
  }

  /**
   The staging row a landing row becomes. Updates and deletes are validated as partial records. A row
   whose target cannot be resolved or whose values the columns do not take becomes none.
   */
  lemma AssessMeans(e: Entity, live: map<RecordId, GoldenRow>, now: Time, r: LandingRow, i: nat, batch: nat,
                    pick: Chooser)
    requires WellFormed(e)
    ensures var outcome := Validated(e, r.payload, r.op in {OpUpdate, OpDelete});
      var resolved := Resolve(e, live, outcome.values, r.target, r.op, pick);
      var made := Assess(e, live, now, r, i, batch, pick);
      && (made.Stage? <==>
            !resolved.CastFailed? && forall a :: a in e.attributes ==> Storable(a, StagedValue(a, outcome.values)))
      && (made.Stage? ==>
            var row := made.row;
            && row.landingId == i && row.op == r.op && row.target == resolved.target
            && row.matchKey == MatchKey(e, outcome.values) && row.source == r.source && row.batch == batch
            && row.status == PendingReview && (row.isValid <==> row.faults == {})
            && (forall f :: f in row.faults <==>
                  || f in outcome.faults || f in resolved.faults
                  || (r.op == OpDelete && row.target.None? && f == Fault("_record", NotFound)))
            && (row.changeType.Deletion? <==> r.op == OpDelete)
            && (row.changeType.Revision? <==> r.op != OpDelete && row.target.Some?)
            && row.submittedBy == r.submittedBy && row.submittedAt == now
            && row.editedBy.None? && row.editedAt.None?
            && row.reviewedBy.None? && row.reviewedAt.None? && row.note.None?
            && (forall name :: name in row.supplied <==>
                  name in r.payload && exists a :: a in e.attributes && a.name == name)
            && (forall name :: name in row.values <==> exists a :: a in e.attributes && a.name == name)
            && forall a :: a in e.attributes ==> row.values[a.name] == StagedValue(a, outcome.values))
  {
    hide Validated, Resolve, MatchKey, Storable, Filled;
    var outcome := Validated(e, r.payload, r.op in {OpUpdate, OpDelete});
    forall a | a in e.attributes
      ensures a.name in Filled(e.attributes, outcome.values)
      ensures Filled(e.attributes, outcome.values)[a.name] == StagedValue(a, outcome.values)
    {
      FilledColumn(e.attributes, outcome.values, a);
    }
    FilledKeys(e.attributes, outcome.values);
  }

  // ---------------------------------------------------------------- a promotion as a whole

  /** The row is waiting and asked for; naming no row asks for all. */
  predicate Asked(s: State, ids: set<nat>, i: nat) {
    i < |s.landing| && s.landing[i].status == Pending && (|ids| > 0 ==> i in ids)
  }

  /** The rows asked for that come before the i-th. */
  function AskedBefore(s: State, ids: set<nat>, i: nat): set<nat> {
    set j: nat | j < i && Asked(s, ids, j)
  }

  /** The promotion gets to the row: fewer than `limit` rows asked for come before it. */
  predicate Reached(s: State, ids: set<nat>, limit: nat, i: nat) {
    Asked(s, ids, i) && |AskedBefore(s, ids, i)| < limit
  }

  /**
   A promotion processes exactly the rows it reaches: each is marked with the time and as promoted or
   failed, everything else about it and every other landing row stay. Golden records, history and
   earlier batches stay, earlier staging rows too. The new batch counts the rows.
   */
  lemma PromotionMeans(e: Entity, s: State, now: Time, ids: set<nat>, limit: nat, actor: string, pick: Chooser)
    ensures var t := Promote(e, s, now, ids, limit, actor, pick);
      && t.book == s.book && s.staging <= t.staging && |t.landing| == |s.landing|
      && |t.batches| == |s.batches| + 1 && t.batches[..|s.batches|] == s.batches
      && (forall i: nat :: i < |s.landing| && !Reached(s, ids, limit, i) ==> t.landing[i] == s.landing[i])
      && (forall i: nat :: Reached(s, ids, limit, i) ==>
            var was, row := s.landing[i], t.landing[i];
            && row.op == was.op && row.payload == was.payload && row.target == was.target && row.source == was.source
            && row.batch == was.batch && row.key == was.key && row.submittedBy == was.submittedBy
            && row.receivedAt == was.receivedAt && row.processedAt == Some(now)
            && row.status ==
               if Assess(e, s.book.live, now, was, i, |s.batches|, pick).Stage? then Promoted else Errored)
      && var b, reached := t.batches[|s.batches|], set i: nat | i < |s.landing| && Reached(s, ids, limit, i);
      && b.triggeredBy == actor && b.rowsIn == |reached|
      && b.rowsOk == |t.staging| - |s.staging| && b.rowsFailed == b.rowsIn - b.rowsOk
      && (b.withErrors <==> b.rowsOk < b.rowsIn)
  {
    hide Assess, PromoteRows, PendingRows, Reached;
    var rows := Take(PendingRows(s.landing, ids), limit);
    assert forall j, k :: 0 <= j < k < |rows| ==> rows[j] != rows[k];
    PromotionMarks(e, s, now, rows, |s.batches|, pick);
    PromotionStages(e, s, now, rows, |s.batches|, pick);
    forall i: nat ensures i in rows <==> Reached(s, ids, limit, i) {
      TakenMeans(s, ids, limit, i);
    }
    assert (set i: nat | i < |s.landing| && Reached(s, ids, limit, i)) == Elements(rows);
    DistinctCount(rows);
  }

  function Elements(rows: seq<nat>): set<nat> {
    set i | i in rows
  }

  lemma {:induction false} DistinctCount(rows: seq<nat>)
    requires forall j, k :: 0 <= j < k < |rows| ==> rows[j] != rows[k]
    ensures |Elements(rows)| == |rows|
  {
    if rows != [] {
      var n := |rows| - 1;
      DistinctCount(rows[..n]);
      assert Elements(rows) == Elements(rows[..n]) + {rows[n]};
    }
  }

  lemma PendingMeans(s: State, ids: set<nat>, i: nat)
    ensures i in PendingRows(s.landing, ids) <==> Asked(s, ids, i)
  {
    var rows := PendingRows(s.landing, ids);
    if j :| 0 <= j < |rows| && rows[j] == i {
      assert IsPending(s.landing, ids, rows[j]);
    }
  }

  /** The oldest rows asked for are taken, up to the limit. */
  lemma TakenMeans(s: State, ids: set<nat>, limit: nat, i: nat)
    ensures i in Take(PendingRows(s.landing, ids), limit) <==> Reached(s, ids, limit, i)
  {
    hide PendingRows, Asked;
    var pending := PendingRows(s.landing, ids);
    PendingMeans(s, ids, i);
    if k :| 0 <= k < |pending| && pending[k] == i {
      forall j: nat ensures j in AskedBefore(s, ids, i) <==> j in pending[..k] {
        PendingMeans(s, ids, j);
      }
      DistinctCount(pending[..k]);
      assert AskedBefore(s, ids, i) == Elements(pending[..k]);
      assert i in Take(pending, limit) <==> k < limit;
    }
  }
}
