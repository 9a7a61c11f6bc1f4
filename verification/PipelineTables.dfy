/**
 The four tables of one deployed entity as mutable state, and the operations of
 app/services/pipeline.py, app/api/v1/data.py and app/api/v1/stewardship.py on them, each shown
 to do exactly what the pipeline specification says.
 */
module PipelineTables {
  import opened Common
  import opened Values
  import opened EntityModel
  import opened Validation
  import opened Ledger
  import opened Matching
  import opened Pipeline
  import opened Conservation
  import opened Bulk

  /** How an attempt to change the golden record ended. */
  datatype Applying = Changed(change: Change) | Missing | DatabaseError

  /** What a promotion reports of one landing row. */
  datatype RowResult =
    | RowStaged(landingId: nat, stagingId: nat, isValid: bool, changeType: ChangeType, errors: nat)
    | RowFailed(landingId: nat)

  /** The report of landing row i is true of the tables. */
  predicate Tells(result: RowResult, i: nat, landing: seq<LandingRow>, staging: seq<StagingRow>) {
    && result.landingId == i && i < |landing|
    && match result
       case RowFailed(_) => landing[i].status == Errored
       case RowStaged(_, sid, valid, change, errors) =>
         && landing[i].status == Promoted && sid < |staging| && staging[sid].landingId == i
         && staging[sid].isValid == valid && staging[sid].changeType == change && |staging[sid].faults| == errors
  }

  /** One record of a bulk write; its target is the record's own mdm_id member. */
  datatype Record = Record(payload: Row, target: Target)

  function BulkRequest(op: Operation, r: Record, source: Option<string>, actor: string, batch: nat): WriteRequest {
    WriteRequest(op, r.payload, r.target, source, Some(actor), Some(batch), None)
  }

  function BulkRows(now: Time, op: Operation, records: seq<Record>, source: Option<string>, actor: string,
                    batch: nat): seq<LandingRow> {
    seq(|records|, i requires 0 <= i < |records| =>
      NewLandingRow(now, BulkRequest(op, records[i], source, actor, batch)))
  }

  class Tables {
    const entity: Entity
    var landing: seq<LandingRow>
    var staging: seq<StagingRow>
    var live: map<RecordId, GoldenRow>
    var history: seq<HistoryRow>
    var batches: seq<Batch>

    function Contents(): State
      reads this
    {
      State(landing, staging, Book(live, history), batches)
    }

    constructor (e: Entity)
      ensures entity == e && Contents() == INITIAL
    {
      entity := e;
      landing, staging, live, history, batches := [], [], map[], [], [];
    }

    // -------------------------------------------------------------- landing

    method LookupKey(key: string) returns (found: Option<nat>)
      ensures found == FindKey(landing, key)
    {
      for i := 0 to |landing|
        invariant FindKey(landing[..i], key) == None
      {
        assert landing[..i + 1][..i] == landing[..i];
        if landing[i].key == Some(key) {
          KeyFoundEarly(landing, key, i);
          return Some(i);
        }
      }
      assert landing[..|landing|] == landing;
      return None;
    }

    method WriteToLanding(now: Time, w: WriteRequest) returns (receipt: Receipt)
      modifies this`landing
      ensures receipt == Receive(old(landing), w)
      ensures Contents() == Write(old(Contents()), now, w)
    {
      if w.op.OpOther? {
        return BadOperation;
      }
      var existing := None;
      if w.key.Some? {
        existing := LookupKey(w.key.value);
      }
      if existing.Some? {
        if w.key.value != "" {
          return Deduplicated(existing.value, landing[existing.value].status);
        }
        return KeyClash;
      }
      landing := landing + [LandingRow(w.op, w.payload, w.target, w.source, w.batch, w.key, w.submittedBy, now, Pending,
                                       None)];
      return Landed(|landing| - 1);
    }

    // -------------------------------------------------------------- landing to staging

    method ResolveTarget(values: Row, target: Target, op: Operation, pick: Chooser) returns (r: Resolution)
      ensures r == Resolve(entity, live, values, target, op, pick)
    {
      hide ByBusinessKey, ByMatchKey, HasAll, Selected;
      match target {
        case Malformed => return CastFailed;
        case Explicit(id) =>
          if id in live {
            return Resolved(Some(id), {});
          }
          return Resolved(None, {Fault("mdm_id", NotFound)});
        case NoTarget =>
      }
      var business := BusinessKey(entity);
      if |business| > 0 && HasAll(values, business) {
        var found := ByBusinessKey(entity, live, values);
        if found != {} {
          var faults: set<Fault> := {};
          if op.OpInsert? {
            faults := {Fault(business[0].name, Duplicate)};
          }
          return Resolved(Some(pick(found)), faults);
        }
        return Resolved(None, {});
      }
      var keys := MatchKeys(entity);
      if |keys| > 0 && HasAll(values, keys) {
        var found := ByMatchKey(entity, live, values);
        if found != {} {
          var faults: set<Fault> := {};
          if op.OpInsert? {
            faults := {Fault(keys[0].name, ProbableDuplicate)};
          }
          return Resolved(Some(pick(found)), faults);
        }
      }
      return Resolved(None, {});
    }

    /** One row of the promotion loop: what the row becomes, nothing written yet. */
    method AssessRow(now: Time, i: nat, batch: nat, pick: Chooser) returns (a: Assessment)
      requires i < |landing|
      ensures a == Assess(entity, live, now, landing[i], i, batch, pick)
    {
      hide Filled, Stageable, Resolve, MatchKey, Validated;
      var r := landing[i];
      var outcome := ValidateRecord(entity, r.payload, Partial(r.op));
      var supplied := Names(entity.attributes) * r.payload.Keys;
      var matchKey := BuildMatchKey(entity, outcome.values);
      var resolution := ResolveTarget(outcome.values, r.target, r.op, pick);
      if resolution.CastFailed? {
        return Unstageable;
      }
      var faults := outcome.faults + resolution.faults;
      var changeType := if resolution.target.Some? then Revision else Creation;
      if r.op.OpDelete? {
        changeType := Deletion;
        if resolution.target.None? {
          faults := faults + {Fault("_record", NotFound)};
        }
      }
      var columns := Filled(entity.attributes, outcome.values);
      if !Stageable(entity, columns) {
        return Unstageable;
      }
      return Stage(StagingRow(i, r.op, resolution.target, matchKey, r.source, batch, PendingReview,
                              faults, faults == {}, changeType, r.submittedBy, now,
                              None, None, None, None, None, supplied, columns));
    }

    /** One row of the promotion loop with its writes: staged and marked promoted, or marked failed. */
    method PromoteOneRow(now: Time, i: nat, batch: nat, pick: Chooser, ghost ok: nat,
                         ghost failed: nat) returns (result: RowResult)
      requires i < |landing|
      modifies this`landing, this`staging
      ensures PromoteRow(entity, live, Progress(old(landing), old(staging), ok, failed), now, i, batch, pick)
           == if result.RowStaged? then Progress(landing, staging, ok + 1, failed)
              else Progress(landing, staging, ok, failed + 1)
      ensures Tells(result, i, landing, staging) && |landing| == |old(landing)| && old(staging) <= staging
      ensures |staging| == |old(staging)| + if result.RowStaged? then 1 else 0
      ensures forall j: nat :: j < |landing| && j != i ==> landing[j] == old(landing[j])
    {
      hide Assess;
      var a := AssessRow(now, i, batch, pick);
      match a {
        case Stage(row) =>
          AssessedRow(entity, Contents(), now, i, batch, pick);
          result := RowStaged(i, |staging|, row.isValid, row.changeType, |row.faults|);
          staging := staging + [row];
          landing := landing[i := landing[i].(status := Promoted, processedAt := Some(now))];
        case Unstageable =>
          result := RowFailed(i);
          landing := landing[i := landing[i].(status := Errored, processedAt := Some(now))];
      }
    }

    method PromoteLandingToStaging(now: Time, ids: set<nat>, limit: nat, actor: string, pick: Chooser)
      returns (rowsIn: nat, promoted: nat, failed: nat, results: seq<RowResult>)
      modifies this`landing, this`staging, this`batches
      ensures Contents() == Promote(entity, old(Contents()), now, ids, limit, actor, pick)
      ensures rowsIn == |Take(PendingRows(old(landing), ids), limit)| == promoted + failed
      ensures |staging| == |old(staging)| + promoted
      ensures |results| == rowsIn
      ensures forall k :: 0 <= k < rowsIn ==>
          Tells(results[k], Take(PendingRows(old(landing), ids), limit)[k], landing, staging)
    {
      hide Assess, PendingRows, PromoteRows, PromoteRow, Tells;
      results := [];
      var rows := Take(PendingRows(landing, ids), limit);
      var batch := |batches|;
      promoted, failed := 0, 0;
      ghost var start := Contents();
      NoRowsPromoted(entity, start, now, batch, pick);
      for k := 0 to |rows|
        invariant Progress(landing, staging, promoted, failed)
             == PromoteRows(entity, start, now, rows[..k], batch, pick)
        invariant live == start.book.live && history == start.book.history && batches == start.batches
        invariant promoted + failed == k == |results| && |staging| == |start.staging| + promoted
        invariant forall j :: 0 <= j < k ==> Tells(results[j], rows[j], landing, staging)
      {
        OneMorePromoted(entity, start, now, rows, k, batch, pick);
        ghost var before, told := Contents(), results;
        var result := PromoteOneRow(now, rows[k], batch, pick, promoted, failed);
        results := results + [result];
        StillTells(told, rows[..k], before.landing, before.staging, landing, staging);
        if result.RowStaged? {
          promoted := promoted + 1;
        } else {
          failed := failed + 1;
        }
      }
      assert rows[..|rows|] == rows;
      rowsIn := |rows|;
      batches := batches + [Batch(actor, rowsIn, promoted, failed, failed > 0)];
    }

    /** The write endpoint: only a write that really landed triggers a promotion. */
    method WriteAndPromote(now: Time, later: Time, w: WriteRequest, autoPromote: bool, limit: nat, actor: string,
                           pick: Chooser)
      returns (receipt: Receipt)
      modifies this`landing, this`staging, this`batches
      ensures receipt == Receive(old(landing), w)
      ensures Contents() ==
        var landed := Write(old(Contents()), now, w);
        if receipt.Landed? && autoPromote then Promote(entity, landed, later, {}, limit, actor, pick) else landed
      ensures !receipt.Landed? ==> Contents() == old(Contents())
    {
      receipt := WriteToLanding(now, w);
      if receipt.Landed? && autoPromote {
        var _, _, _, _ := PromoteLandingToStaging(later, {}, limit, actor, pick);
      }
    }

    /** Many writes under one batch id and no idempotency keys: every one lands, then one promotion. */
    method BulkWrite(now: Time, later: Time, op: Operation, records: seq<Record>, source: Option<string>, actor: string,
                     batch: nat, autoPromote: bool, limit: nat, maxRows: nat, pick: Chooser)
      returns (ids: Option<seq<nat>>)
      modifies this`landing, this`staging, this`batches
      ensures ids.Some? <==> |records| <= maxRows && !op.OpOther?
      ensures ids.None? ==> Contents() == old(Contents())
      ensures ids.Some? ==>
        && |ids.value| == |records| && (forall i :: 0 <= i < |records| ==> ids.value[i] == |old(landing)| + i)
        && Contents() ==
             var landed := old(Contents()).(landing := old(landing) + BulkRows(now, op, records, source, actor, batch));
             if autoPromote then Promote(entity, landed, later, {}, limit, actor, pick) else landed
    {
      hide Promote;
      if |records| > maxRows || op.OpOther? {
        return None;
      }
      ghost var rows := BulkRows(now, op, records, source, actor, batch);
      var landed: seq<nat> := [];
      for i := 0 to |records|
        invariant |landed| == i && forall j :: 0 <= j < i ==> landed[j] == |old(landing)| + j
        invariant Contents() == old(Contents()).(landing := old(landing) + rows[..i])
      {
        var receipt := WriteToLanding(now, BulkRequest(op, records[i], source, actor, batch));
        landed := landed + [receipt.landingId];
        assert rows[..i + 1] == rows[..i] + [rows[i]];
      }
      assert rows[..|records|] == rows;
      if autoPromote {
        var _, _, _, _ := PromoteLandingToStaging(later, {}, limit, actor, pick);
      }
      return Some(landed);
    }

    // -------------------------------------------------------------- review

    method EditStaging(now: Time, sid: nat, updates: Row, actor: string) returns (reply: EditReply)
      modifies this`staging
      ensures reply == EditVerdict(entity, old(Contents()), now, sid, updates, actor)
      ensures Contents() == Edit(entity, old(Contents()), now, sid, updates, actor)
    {
      if sid >= |staging| {
        return EditNoRow;
      }
      var row := staging[sid];
      if row.status == Applied {
        return EditTooLate;
      }
      if !(updates.Keys <= Names(entity.attributes)) {
        return EditUnknownField;
      }
      var outcome := ValidateRecord(entity, row.values + updates, Partial(row.op));
      var matchKey := BuildMatchKey(entity, outcome.values);
      var edited := row.(values := row.values + outcome.values, faults := outcome.faults,
                         isValid := outcome.faults == {},
                         matchKey := matchKey, editedBy := Some(actor), editedAt := Some(now),
                         status := PendingReview, supplied := row.supplied + updates.Keys);
      if !Stageable(entity, edited.values) {
        return EditViolation;
      }
      staging := staging[sid := edited];
      return Edited(outcome.faults);
    }

    method RejectStaging(now: Time, sid: nat, actor: string, reason: string) returns (done: bool)
      modifies this`staging
      ensures done == Rejectable(old(Contents()), sid)
      ensures Contents() == Reject(old(Contents()), now, sid, actor, reason)
    {
      done := sid < |staging| && staging[sid].status != Applied;
      if done {
        staging := staging[sid := staging[sid].(status := Rejected, reviewedBy := Some(actor), reviewedAt := Some(now),
                                                note := Some(reason))];
      }
    }

    // -------------------------------------------------------------- staging to live

    method WriteHistory(now: Time, id: RecordId, kind: ChangeKind, actor: string)
      requires id in live
      modifies this`history
      ensures history == old(history) + [Snapshot(id, live[id], kind, now, actor)]
    {
      var row := live[id];
      history := history + [HistoryRow(id, row.version, kind, row.updatedAt, now, actor, row.source, row.deleted,
                                       row.stagingId, row.values)];
    }

    method ApplyInsert(now: Time, r: StagingRow, sid: nat, actor: string, newId: RecordId) returns (outcome: Applying)
      modifies this`live
      ensures outcome
           == match ChangeFor(entity, old(Contents()).book, now, r.(op := OpInsert, target := None), sid, actor, newId)
                         case Granted(c) => Changed(c)
                         case _ => DatabaseError
      ensures outcome.Changed? ==> Contents().book == Apply(old(Contents()).book, now, outcome.change)
    {
      var change := Insert(newId, r.values, actor, sid, r.source);
      var row := GoldenRow(r.values, 1, r.source, false, None, now, actor, now, actor, actor, sid);
      if newId in Known(Contents().book) || !Acceptable(entity, live, newId, row) {
        return DatabaseError;
      }
      live := live[newId := row];
      return Changed(change);
    }

    /** History is written before the update is tried; only the transaction undoes it. */
    method ApplyUpdate(now: Time, id: RecordId, r: StagingRow, sid: nat, actor: string) returns (outcome: Applying)
      requires !r.op.OpDelete? && r.target == Some(id)
      modifies this`live, this`history
      ensures forall newId :: outcome == match ChangeFor(entity, old(Contents()).book, now, r, sid, actor, newId)
                                         case Granted(c) => Changed(c)
                                         case Refused(_) => Missing
                                         case Violated => DatabaseError
      ensures outcome.Changed? ==> Contents().book == Apply(old(Contents()).book, now, outcome.change)
    {
      hide Acceptable, SetsOf;
      if id !in live {
        return Missing;
      }
      WriteHistory(now, id, Updated, actor);
      var sets := SetsOf(r);
      if sets == map[] {
        assert live[id := live[id]] == live;
        return Changed(Amend(id, sets, actor, sid));
      }
      var row := live[id].(values := live[id].values + sets, version := live[id].version + 1, updatedAt := now,
                           updatedBy := actor, approvedBy := actor, stagingId := sid);
      if !Acceptable(entity, live, id, row) {
        return DatabaseError;
      }
      live := live[id := row];
      return Changed(Amend(id, sets, actor, sid));
    }

    method ApplyDelete(now: Time, target: Option<RecordId>, actor: string) returns (outcome: Applying)
      modifies this`live, this`history
      ensures outcome ==
        if target.None? then DatabaseError
        else if target.value !in old(live) then Missing
        else Changed(if entity.softDelete then SoftDelete(target.value, actor) else HardDelete(target.value, actor))
      ensures outcome.Changed? ==> Contents().book == Apply(old(Contents()).book, now, outcome.change)
    {
      if target.None? {
        return DatabaseError;
      }
      var id := target.value;
      if id !in live {
        return Missing;
      }
      WriteHistory(now, id, Deleted, actor);
      if entity.softDelete {
        live := live[id := live[id].(deleted := true, deletedAt := Some(now), version := live[id].version + 1,
                                     updatedAt := now, updatedBy := actor, approvedBy := actor)];
        return Changed(SoftDelete(id, actor));
      }
      live := live - {id};
      return Changed(HardDelete(id, actor));
    }

    /** The branch on operation and target. */
    method ApplyRow(now: Time, row: StagingRow, sid: nat, actor: string, newId: RecordId) returns (outcome: Applying)
      modifies this`live, this`history
      ensures outcome == match ChangeFor(entity, old(Contents()).book, now, row, sid, actor, newId)
                         case Granted(c) => Changed(c)
                         case Refused(_) => Missing
                         case Violated => DatabaseError
      ensures outcome.Changed? ==> Contents().book == Apply(old(Contents()).book, now, outcome.change)
    {
      hide Acceptable, SetsOf, Apply;
      if row.op.OpDelete? {
        outcome := ApplyDelete(now, row.target, actor);
      } else if row.target.Some? {
        outcome := ApplyUpdate(now, row.target.value, row, sid, actor);
      } else {
        outcome := ApplyInsert(now, row, sid, actor, newId);
      }
    }

    /** Approval, one transaction: any failure leaves every table as it was. */
    method ApplyStagingToLive(now: Time, sid: nat, actor: string, sod: bool, note: Option<string>, newId: RecordId)
      returns (verdict: Verdict)
      modifies this`staging, this`live, this`history
      ensures verdict == ApproveVerdict(entity, old(Contents()), now, sid, actor, sod, newId)
      ensures Contents() == Approve(entity, old(Contents()), now, sid, actor, sod, note, newId)
    {
      hide ChangeFor, Apply;
      if sid >= |staging| {
        return Refused(NoSuchRow);
      }
      var row := staging[sid];
      if row.status == Applied || row.status == Rejected {
        return Refused(AlreadyDecided);
      }
      if !row.isValid {
        return Refused(HasFaults);
      }
      if sod {
        var originator := if row.editedBy.Some? && row.editedBy.value != "" then row.editedBy else row.submittedBy;
        if originator.Some? && originator.value != "" && originator.value == actor {
          return Refused(OwnWork);
        }
      }
      OnlyGoneRefused(entity, Contents().book, now, row, sid, actor, newId);
      var savedLive, savedHistory := live, history;
      var outcome := ApplyRow(now, row, sid, actor, newId);
      match outcome {
        case Changed(change) =>
          staging := staging[sid := row.(status := Applied, reviewedBy := Some(actor), reviewedAt := Some(now),
                                         note := note)];
          return Granted(change);
        case Missing =>
          live, history := savedLive, savedHistory;
          return Refused(GoldenRecordGone);
        case DatabaseError =>
          live, history := savedLive, savedHistory;
          return Violated;
      }
    }

    /** Many approvals, each its own transaction; a refusal is noted, a database error ends the call. */
    method BulkApprove(attempts: seq<Attempt>, actor: string, sod: bool, note: Option<string>)
      returns (approved: nat, failed: nat, aborted: bool)
      modifies this`staging, this`live, this`history
      ensures Tally(Contents(), approved, failed, aborted)
           == Approvals(entity, old(Contents()), attempts, actor, sod, note)
    {
      hide ApproveVerdict;
      approved, failed, aborted := 0, 0, false;
      ghost var start := Contents();
      for i := 0 to |attempts|
        invariant !aborted
        invariant Tally(Contents(), approved, failed, false)
             == Approvals(entity, start, attempts[..i], actor, sod, note)
      {
        assert attempts[..i + 1][..i] == attempts[..i];
        var v := ApplyStagingToLive(attempts[i].at, attempts[i].sid, actor, sod, note, attempts[i].newId);
        match v {
          case Granted(_) => approved := approved + 1;
          case Refused(_) => failed := failed + 1;
          case Violated =>
            AbortedForGood(entity, start, attempts, i + 1, actor, sod, note);
            aborted := true;
            return;
        }
      }
      assert attempts[..|attempts|] == attempts;
    }

    /** Many rejections; rows that cannot be rejected are noted. */
    method BulkReject(now: Time, sids: seq<nat>, actor: string, reason: string) returns (rejected: seq<nat>,
        failed: seq<nat>)
      modifies this`staging
      ensures rejected == Rejecting(old(Contents()), sids, true) && failed == Rejecting(old(Contents()), sids, false)
      ensures |rejected| + |failed| == |sids|
      ensures Contents() == Rejections(old(Contents()), now, sids, actor, reason)
    {
      rejected, failed := [], [];
      ghost var start := Contents();
      for i := 0 to |sids|
        invariant rejected == Rejecting(start, sids[..i], true) && failed == Rejecting(start, sids[..i], false)
        invariant |rejected| + |failed| == i
        invariant Contents() == Rejections(start, now, sids[..i], actor, reason)
      {
        assert sids[..i + 1][..i] == sids[..i];
        StillRejectable(start, now, sids[..i], actor, reason, sids[i]);
        var done := RejectStaging(now, sids[i], actor, reason);
        if done {
          rejected := rejected + [sids[i]];
        } else {
          failed := failed + [sids[i]];
        }
      }
      assert sids[..|sids|] == sids;
    }
  }

  /** What a row was reported to have become stays true while other rows are processed. */
  lemma StillTells(results: seq<RowResult>, rows: seq<nat>, landing: seq<LandingRow>, staging: seq<StagingRow>,
                   landing': seq<LandingRow>, staging': seq<StagingRow>)
    requires |results| == |rows| && |landing'| == |landing| && staging <= staging'
    requires forall j :: 0 <= j < |rows| ==> Tells(results[j], rows[j], landing, staging)
    requires forall j :: 0 <= j < |rows| ==> rows[j] < |landing| && landing'[rows[j]] == landing[rows[j]]
    ensures forall j :: 0 <= j < |rows| ==> Tells(results[j], rows[j], landing', staging')
  {
  }

  lemma OnlyGoneRefused(e: Entity, b: Book, now: Time, r: StagingRow, sid: nat, actor: string, newId: RecordId)
    ensures ChangeFor(e, b, now, r, sid, actor, newId).Refused?
       ==> ChangeFor(e, b, now, r, sid, actor, newId) == Refused(GoldenRecordGone)
  {
    hide Acceptable, SetsOf;
  }

  lemma NoRowsPromoted(e: Entity, s: State, now: Time, batch: nat, pick: Chooser)
    ensures PromoteRows(e, s, now, [], batch, pick) == Progress(s.landing, s.staging, 0, 0)
  {
  }

  lemma OneMorePromoted(e: Entity, s: State, now: Time, rows: seq<nat>, k: nat, batch: nat, pick: Chooser)
    requires k < |rows| && forall j :: 0 <= j < |rows| ==> rows[j] < |s.landing|
    ensures PromoteRows(e, s, now, rows[..k + 1], batch, pick)
         == PromoteRow(e, s.book.live, PromoteRows(e, s, now, rows[..k], batch, pick), now, rows[k], batch, pick)
  {
    hide PromoteRow;
    assert rows[..k + 1][..k] == rows[..k];
  }

  lemma {:induction false} KeyFoundEarly(landing: seq<LandingRow>, key: string, i: nat)
    requires i < |landing| && FindKey(landing[..i], key) == None && landing[i].key == Some(key)
    ensures FindKey(landing, key) == Some(i)
    decreases |landing|
  {
    var n := |landing| - 1;
    if i < n {
      assert landing[..n][..i] == landing[..i];
      KeyFoundEarly(landing[..n], key, i);
    } else {
      assert landing[..n] == landing[..i];
    }
  }
}
