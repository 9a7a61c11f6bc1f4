/**
 Landing and staging over any run: every captured write is staged exactly once or not at all,
 what was captured never changes, and promotion accounts for every row it takes.
 */
module Conservation {
  import opened Values
  import opened EntityModel
  import opened Ledger
  import opened Matching
  import opened Pipeline

  // ---------------------------------------------------------------- one promotion

  ghost predicate Distinct(rows: seq<nat>) {
    forall j, k :: 0 <= j < k < |rows| ==> rows[j] != rows[k]
  }

  /** Some staging row at or after position `from` comes from landing row i. */
  ghost predicate StagedFrom(staging: seq<StagingRow>, from: nat, i: nat) {
    exists k :: from <= k < |staging| && staging[k].landingId == i
  }

  /** The status promotion gives a landing row it takes. */
  function Fate(e: Entity, s: State, now: Time, i: nat, batch: nat, pick: Chooser): LandingStatus
    requires i < |s.landing|
  {
    if Assess(e, s.book.live, now, s.landing[i], i, batch, pick).Stage? then Promoted else Errored
  }

  /** A promotion marks each row it takes with its fate and leaves the other landing rows alone. */
  lemma {:induction false} PromotionMarks(e: Entity, s: State, now: Time, rows: seq<nat>, batch: nat, pick: Chooser)
    requires forall j :: 0 <= j < |rows| ==> rows[j] < |s.landing|
    requires Distinct(rows)
    ensures var p := PromoteRows(e, s, now, rows, batch, pick);
      && (forall i: nat :: i < |s.landing| && i !in rows ==> p.landing[i] == s.landing[i])
      && (forall i: nat :: i < |s.landing| && i in rows ==>
            p.landing[i] == Processed(s.landing[i], now, Fate(e, s, now, i, batch, pick)))
  {
    hide Assess;
    if rows != [] {
      PromotionMarks(e, s, now, rows[..|rows| - 1], batch, pick);
      assert forall i: nat :: i in rows <==> i in rows[..|rows| - 1] || i == rows[|rows| - 1];
    }
  }

  lemma AssessedRow(e: Entity, s: State, now: Time, i: nat, batch: nat, pick: Chooser)
    requires i < |s.landing|
    ensures var a, l := Assess(e, s.book.live, now, s.landing[i], i, batch, pick), s.landing[i];
      a.Stage? ==>
        && a.row.landingId == i && a.row.op == l.op && a.row.submittedBy == l.submittedBy && a.row.source == l.source
        && a.row.status == PendingReview && (a.row.isValid <==> a.row.faults == {})
        && a.row.editedBy.None? && a.row.supplied == Names(e.attributes) * l.payload.Keys
  {
    hide Validation.Validated, Resolve, Filled, Stageable, MatchKey, Names;
  }

  /** A promotion stages each row it marks promoted, once, as that row was assessed. */
  lemma {:induction false} PromotionStages(e: Entity, s: State, now: Time, rows: seq<nat>, batch: nat, pick: Chooser)
    requires forall j :: 0 <= j < |rows| ==> rows[j] < |s.landing|
    requires Distinct(rows)
    ensures var p := PromoteRows(e, s, now, rows, batch, pick);
      && p.ok + p.failed == |rows| && |p.staging| == |s.staging| + p.ok && s.staging <= p.staging
      && (forall k :: |s.staging| <= k < |p.staging| ==>
            && p.staging[k].landingId in rows
            && p.staging[k].landingId < |s.landing|
            && Assess(e, s.book.live, now, s.landing[p.staging[k].landingId], p.staging[k].landingId, batch, pick)
                 == Stage(p.staging[k]))
      && (forall k, l :: |s.staging| <= k < l < |p.staging| ==> p.staging[k].landingId != p.staging[l].landingId)
      && (forall i: nat :: i in rows && i < |s.landing| && Fate(e, s, now, i, batch, pick) == Promoted ==>
          StagedFrom(p.staging, |s.staging|, i))
  {
    hide Assess;
    if rows != [] {
      var n := |rows| - 1;
      var before, i := PromoteRows(e, s, now, rows[..n], batch, pick), rows[n];
      PromotionStages(e, s, now, rows[..n], batch, pick);
      PromotionMarks(e, s, now, rows[..n], batch, pick);
      AssessedRow(e, s, now, i, batch, pick);
      assert i !in rows[..n];
      var p := PromoteRows(e, s, now, rows, batch, pick);
      forall j: nat | j in rows && j < |s.landing| && Fate(e, s, now, j, batch, pick) == Promoted
        ensures StagedFrom(p.staging, |s.staging|, j)
      {
        if j == i {
          assert p.staging[|p.staging| - 1].landingId == i;
        } else {
          assert j in rows[..n];
          var k :| |s.staging| <= k < |before.staging| && before.staging[k].landingId == j;
          assert p.staging[k].landingId == j;
        }
      }
    }
  }

  // ---------------------------------------------------------------- every run

  /** What was captured: everything about a landing row but its processing status. */
  predicate SameCapture(a: LandingRow, b: LandingRow) {
    a.(status := b.status, processedAt := b.processedAt) == b
  }

  /** A staging row carries its landing row's operation, submitter and source. */
  predicate Carries(r: StagingRow, l: LandingRow) {
    r.op == l.op && r.submittedBy == l.submittedBy && r.source == l.source
  }

  /** What review never changes about a staging row. */
  predicate SameOrigin(r: StagingRow, q: StagingRow) {
    && r.landingId == q.landingId && r.op == q.op && r.target == q.target && r.source == q.source
    && r.batch == q.batch && r.changeType == q.changeType
    && r.submittedBy == q.submittedBy && r.submittedAt == q.submittedAt
  }

  ghost predicate SameOrigins(before: seq<StagingRow>, after: seq<StagingRow>) {
    |after| == |before| && forall k :: 0 <= k < |before| ==> SameOrigin(before[k], after[k])
  }

  /** Edits, rejections and approvals leave landing, batches and the origin of every staging row alone. */
  lemma ReviewKeepsOrigins(e: Entity, s: State, ev: Event)
    requires !ev.step.DoWrite? && !ev.step.DoPromote?
    ensures Next(e, s, ev).landing == s.landing && Next(e, s, ev).batches == s.batches
    ensures SameOrigins(s.staging, Next(e, s, ev).staging)
  {
    hide Validation.Validated, ChangeFor, Stageable, Apply;
  }

  /** Every staging row comes from a promoted landing row, which it repeats. */
  ghost predicate Sourced(s: State) {
    forall k :: 0 <= k < |s.staging| ==>
      && s.staging[k].landingId < |s.landing|
      && s.landing[s.staging[k].landingId].status == Promoted
      && Carries(s.staging[k], s.landing[s.staging[k].landingId])
  }

  /** No landing row is staged twice, and every promoted one is staged. */
  ghost predicate StagedOnce(s: State) {
    && (forall k, l :: 0 <= k < l < |s.staging| ==> s.staging[k].landingId != s.staging[l].landingId)
    && (forall i: nat :: i < |s.landing| && s.landing[i].status == Promoted ==> StagedFrom(s.staging, 0, i))
  }

  ghost predicate Conserved(s: State) {
    && (forall i :: 0 <= i < |s.landing| ==> s.landing[i].status in {Pending, Promoted, Errored})
    && Sourced(s) && StagedOnce(s)
  }

  lemma StillStaged(before: seq<StagingRow>, after: seq<StagingRow>, i: nat)
    requires StagedFrom(before, 0, i)
    requires |before| <= |after| && forall k :: 0 <= k < |before| ==> after[k].landingId == before[k].landingId
    ensures StagedFrom(after, 0, i)
  {
    var k :| 0 <= k < |before| && before[k].landingId == i;
    assert after[k].landingId == i;
  }

  lemma PromotionSourced(e: Entity, s: State, now: Time, rows: seq<nat>, batch: nat, pick: Chooser)
    requires forall j :: 0 <= j < |rows| ==> rows[j] < |s.landing| && s.landing[rows[j]].status == Pending
    requires Distinct(rows) && Sourced(s)
    ensures var p := PromoteRows(e, s, now, rows, batch, pick); Sourced(State(p.landing, p.staging, s.book, s.batches))
  {
    hide Assess, PromoteRows;
    var p := PromoteRows(e, s, now, rows, batch, pick);
    PromotionMarks(e, s, now, rows, batch, pick);
    PromotionStages(e, s, now, rows, batch, pick);
    forall k | 0 <= k < |p.staging|
      ensures p.staging[k].landingId < |p.landing|
      ensures p.landing[p.staging[k].landingId].status == Promoted
      ensures Carries(p.staging[k], p.landing[p.staging[k].landingId])
    {
      if k >= |s.staging| {
        AssessedRow(e, s, now, p.staging[k].landingId, batch, pick);
      } else {
        assert p.staging[k] == s.staging[k];
      }
    }
  }

  lemma PromotionStagesOnce(e: Entity, s: State, now: Time, rows: seq<nat>, batch: nat, pick: Chooser)
    requires forall j :: 0 <= j < |rows| ==> rows[j] < |s.landing| && s.landing[rows[j]].status == Pending
    requires Distinct(rows) && Sourced(s) && StagedOnce(s)
    ensures var p := PromoteRows(e, s, now, rows, batch, pick);
      StagedOnce(State(p.landing, p.staging, s.book, s.batches))
  {
    hide Assess, PromoteRows;
    var p := PromoteRows(e, s, now, rows, batch, pick);
    PromotionMarks(e, s, now, rows, batch, pick);
    PromotionStages(e, s, now, rows, batch, pick);
    assert forall k :: 0 <= k < |s.staging| ==> p.staging[k] == s.staging[k];
    forall i: nat | i < |p.landing| && p.landing[i].status == Promoted
      ensures StagedFrom(p.staging, 0, i)
    {
      if i in rows {
        var k :| |s.staging| <= k < |p.staging| && p.staging[k].landingId == i;
      } else {
        StillStaged(s.staging, p.staging, i);
      }
    }
  }

  lemma ConservedStep(e: Entity, s: State, ev: Event)
    requires Conserved(s)
    ensures Conserved(Next(e, s, ev))
  {
    hide PromoteRows, Edit, Reject, Approve, Assess, Receive;
    var s' := Next(e, s, ev);
    if ev.step.DoPromote? {
      hide StagedOnce, Sourced;
      var rows := Take(PendingRows(s.landing, ev.step.ids), ev.step.limit);
      PromotionMarks(e, s, ev.at, rows, |s.batches|, ev.step.pick);
      PromotionSourced(e, s, ev.at, rows, |s.batches|, ev.step.pick);
      PromotionStagesOnce(e, s, ev.at, rows, |s.batches|, ev.step.pick);
    } else {
      if !ev.step.DoWrite? {
        ReviewKeepsOrigins(e, s, ev);
      }
      forall i: nat | i < |s'.landing| && s'.landing[i].status == Promoted
        ensures StagedFrom(s'.staging, 0, i)
      {
        StillStaged(s.staging, s'.staging, i);
      }
    }
  }

  /**
   In every reachable state a landing row has exactly one staging row if it is promoted, and
   none while it is pending or failed.
   */
  lemma {:induction false} LandingConserved(e: Entity, events: seq<Event>)
    ensures Conserved(Run(e, events))
    ensures var s := Run(e, events);
      forall i: nat :: i < |s.landing| ==> (s.landing[i].status == Promoted <==> StagedFrom(s.staging, 0, i))
  {
    if events != [] {
      LandingConserved(e, events[..|events| - 1]);
      ConservedStep(e, Run(e, events[..|events| - 1]), events[|events| - 1]);
    }
  }

  /** Captured writes are never lost or altered, and a processed row never changes again. */
  ghost predicate Retained(s: State, s': State) {
    && |s.landing| <= |s'.landing|
    && forall i :: 0 <= i < |s.landing| ==>
         SameCapture(s.landing[i], s'.landing[i]) && (s.landing[i].status != Pending ==> s'.landing[i] == s.landing[i])
  }

  lemma RetainedStep(e: Entity, s: State, ev: Event)
    ensures Retained(s, Next(e, s, ev))
  {
    hide PromoteRows, Edit, Reject, Approve;
    if ev.step.DoPromote? {
      hide Assess;
      var rows := Take(PendingRows(s.landing, ev.step.ids), ev.step.limit);
      PromotionMarks(e, s, ev.at, rows, |s.batches|, ev.step.pick);
    } else if !ev.step.DoWrite? {
      ReviewKeepsOrigins(e, s, ev);
    }
  }

  lemma {:induction false} CaptureRetained(e: Entity, events: seq<Event>, n: nat)
    requires n <= |events|
    ensures Retained(Run(e, events[..n]), Run(e, events))
    decreases |events|
  {
    if n == |events| {
      assert events[..n] == events;
    } else {
      var before := events[..|events| - 1];
      assert before[..n] == events[..n];
      CaptureRetained(e, before, n);
      RetainedStep(e, Run(e, before), events[|events| - 1]);
    }
  }

  // ---------------------------------------------------------------- batches

  function StagedIn(staging: seq<StagingRow>, b: nat): set<nat> {
    set k: nat | k < |staging| && staging[k].batch == b
  }

  /** Each batch's counts add up, and its successes are the staging rows that name it. */
  ghost predicate BatchesBalance(s: State) {
    && (forall k :: 0 <= k < |s.staging| ==> s.staging[k].batch < |s.batches|)
    && (forall b: nat :: b < |s.batches| ==>
          && s.batches[b].rowsIn == s.batches[b].rowsOk + s.batches[b].rowsFailed
          && (s.batches[b].withErrors <==> s.batches[b].rowsFailed > 0)
          && s.batches[b].rowsOk == |StagedIn(s.staging, b)|)
  }

  function Interval(lo: nat, hi: nat): (r: set<nat>)
    requires lo <= hi
    ensures |r| == hi - lo && forall k: nat :: k in r <==> lo <= k < hi
  {
    if lo == hi then {} else Interval(lo, hi - 1) + {hi - 1}
  }

  lemma StagedInGrown(before: seq<StagingRow>, after: seq<StagingRow>, b0: nat)
    requires before <= after
    requires forall k :: 0 <= k < |before| ==> before[k].batch < b0
    requires forall k :: |before| <= k < |after| ==> after[k].batch == b0
    ensures |StagedIn(after, b0)| == |after| - |before|
    ensures forall b: nat :: b < b0 ==> StagedIn(after, b) == StagedIn(before, b)
  {
    assert StagedIn(after, b0) == Interval(|before|, |after|);
    forall b: nat | b < b0 ensures StagedIn(after, b) == StagedIn(before, b) {
    }
  }

  lemma PromotionBalances(e: Entity, s: State, ev: Event)
    requires ev.step.DoPromote? && BatchesBalance(s)
    ensures BatchesBalance(Next(e, s, ev))
  {
    hide PromoteRows, Assess, PendingRows;
    var b0 := |s.batches|;
    var rows := Take(PendingRows(s.landing, ev.step.ids), ev.step.limit);
    var p := PromoteRows(e, s, ev.at, rows, b0, ev.step.pick);
    assert s.staging <= p.staging && |p.staging| == |s.staging| + p.ok && p.ok + p.failed == |rows|
      && forall k :: |s.staging| <= k < |p.staging| ==> p.staging[k].batch == b0 by {
      PromotionStages(e, s, ev.at, rows, b0, ev.step.pick);
      forall k | |s.staging| <= k < |p.staging| ensures p.staging[k].batch == b0 {
        AssessedBatch(e, s, ev.at, p.staging[k].landingId, b0, ev.step.pick);
      }
    }
    StagedInGrown(s.staging, p.staging, b0);
  }

  lemma BatchesBalanceStep(e: Entity, s: State, ev: Event)
    requires BatchesBalance(s)
    ensures BatchesBalance(Next(e, s, ev))
  {
    hide PromoteRows, Edit, Reject, Approve, Promote;
    if ev.step.DoPromote? {
      PromotionBalances(e, s, ev);
    } else if !ev.step.DoWrite? {
      ReviewKeepsOrigins(e, s, ev);
      forall b: nat ensures StagedIn(Next(e, s, ev).staging, b) == StagedIn(s.staging, b) {
      }
    }
  }

  lemma AssessedBatch(e: Entity, s: State, now: Time, i: nat, batch: nat, pick: Chooser)
    requires i < |s.landing|
    ensures var a := Assess(e, s.book.live, now, s.landing[i], i, batch, pick); a.Stage? ==> a.row.batch == batch
  {
    hide Validation.Validated, Resolve, Filled, Stageable, MatchKey, Names;
  }

  lemma {:induction false} BatchesAlwaysBalance(e: Entity, events: seq<Event>)
    ensures BatchesBalance(Run(e, events))
  {
    if events != [] {
      BatchesAlwaysBalance(e, events[..|events| - 1]);
      BatchesBalanceStep(e, Run(e, events[..|events| - 1]), events[|events| - 1]);
    }
  }

  // ---------------------------------------------------------------- draining

  lemma {:induction false} IncreasingUnique(a: seq<nat>, b: seq<nat>)
    requires forall j, k :: 0 <= j < k < |a| ==> a[j] < a[k]
    requires forall j, k :: 0 <= j < k < |b| ==> b[j] < b[k]
    requires forall i: nat :: i in a <==> i in b
    ensures a == b
  {
    assert (a != [] ==> a[0] in b) && (b != [] ==> b[0] in a);
    if a != [] {
      var j :| 0 <= j < |b| && b[j] == a[0];
      var k :| 0 <= k < |a| && a[k] == b[0];
      assert a[0] == b[0];
      forall i: nat ensures i in a[1..] <==> i in b[1..] {
        assert i in a[1..] <==> i in a && i != a[0];
        assert i in b[1..] <==> i in b && i != b[0];
      }
      IncreasingUnique(a[1..], b[1..]);
    }
  }

  lemma PendingIff(landing: seq<LandingRow>, i: nat)
    ensures i in PendingRows(landing, {}) <==> i < |landing| && landing[i].status == Pending
  {
    var rows := PendingRows(landing, {});
    if i in rows {
      var j :| 0 <= j < |rows| && rows[j] == i;
      assert IsPending(landing, {}, rows[j]);
    } else if i < |landing| {
      assert !IsPending(landing, {}, i);
    }
  }

  lemma IncreasingSplit(a: seq<nat>, n: nat)
    requires n <= |a| && forall j, k :: 0 <= j < k < |a| ==> a[j] < a[k]
    ensures forall i :: i in a[n..] <==> i in a && i !in a[..n]
  {
    var rows, tail := a[..n], a[n..];
    assert a == rows + tail;
    assert forall j, k :: 0 <= j < |rows| && 0 <= k < |tail| ==> rows[j] < tail[k];
  }

  /** Taking the first pending rows out of the pending set leaves the later ones. */
  lemma PendingAfter(before: seq<LandingRow>, after: seq<LandingRow>, n: nat)
    requires |after| == |before| && n <= |PendingRows(before, {})|
    requires forall i: nat :: i < |before| ==>
      if i in PendingRows(before, {})[..n] then after[i].status != Pending else after[i] == before[i]
    ensures PendingRows(after, {}) == PendingRows(before, {})[n..]
  {
    hide PendingRows;
    var pending, left := PendingRows(before, {}), PendingRows(after, {});
    IncreasingSplit(pending, n);
    forall i: nat ensures i in left <==> i in pending[n..] {
      PendingIff(before, i);
      PendingIff(after, i);
    }
    IncreasingUnique(left, pending[n..]);
  }

  /** A promotion of everything takes the oldest pending rows and leaves the younger ones pending. */
  lemma PromotionTakesOldest(e: Entity, s: State, now: Time, limit: nat, actor: string, pick: Chooser)
    ensures var pending := PendingRows(s.landing, {});
      PendingRows(Promote(e, s, now, {}, limit, actor, pick).landing, {}) == pending[|Take(pending, limit)|..]
  {
    hide Assess, PromoteRows, PendingRows;
    var pending := PendingRows(s.landing, {});
    var rows := Take(pending, limit);
    assert rows == pending[..|rows|];
    PromotionMarks(e, s, now, rows, |s.batches|, pick);
    PendingAfter(s.landing, Promote(e, s, now, {}, limit, actor, pick).landing, |rows|);
  }

  predicate TakesAny(ev: Event) {
    ev.step.DoPromote? && ev.step.ids == {} && ev.step.limit >= 1
  }

  /** Repeated promotion drains the pending rows. */
  lemma {:induction false} PromotionDrains(e: Entity, past: seq<Event>, promotions: seq<Event>)
    requires forall ev :: ev in promotions ==> TakesAny(ev)
    requires |PendingRows(Run(e, past).landing, {})| <= |promotions|
    ensures PendingRows(Run(e, past + promotions).landing, {}) == []
  {
    PromotionProgress(e, past, promotions);
  }

  lemma PromotionShrinks(e: Entity, s: State, ev: Event)
    requires TakesAny(ev)
    ensures var before, after := PendingRows(s.landing, {}), PendingRows(Next(e, s, ev).landing, {});
      |after| <= |before| && (after == [] || |after| + 1 <= |before|)
  {
    hide Promote, PendingRows;
    PromotionTakesOldest(e, s, ev.at, ev.step.limit, ev.step.actor, ev.step.pick);
  }

  lemma {:induction false} PromotionProgress(e: Entity, past: seq<Event>, promotions: seq<Event>)
    requires forall ev :: ev in promotions ==> TakesAny(ev)
    ensures var before, after := PendingRows(Run(e, past).landing, {}),
                                 PendingRows(Run(e, past + promotions).landing, {});
      after == [] || |after| + |promotions| <= |before|
  {
    hide Next, PendingRows;
    if promotions == [] {
      assert past + promotions == past;
    } else {
      var n := |promotions| - 1;
      PromotionProgress(e, past, promotions[..n]);
      assert (past + promotions)[..|past| + n] == past + promotions[..n];
      assert TakesAny(promotions[n]);
      PromotionShrinks(e, Run(e, past + promotions[..n]), promotions[n]);
    }
  }
}
