/**
 The review workflow over any run: which statuses a staged row can reach, what is final, and
 who may approve what (app/services/pipeline.py, app/api/v1/stewardship.py).
 */
module Review {
  import opened Common
  import opened Values
  import opened EntityModel
  import opened Ledger
  import opened Pipeline
  import opened Conservation

  // ---------------------------------------------------------------- statuses

  predicate WellReviewed(r: StagingRow) {
    r.status in {PendingReview, Rejected, Applied} && (r.isValid <==> r.faults == {})
  }

  ghost predicate AllReviewed(staging: seq<StagingRow>) {
    forall i :: 0 <= i < |staging| ==> WellReviewed(staging[i])
  }

  lemma ReviewedStep(e: Entity, s: State, ev: Event)
    requires AllReviewed(s.staging)
    ensures AllReviewed(Next(e, s, ev).staging)
  {
    hide Validation.Validated, ChangeFor, Apply, Stageable, PromoteRows, Assess;
    if ev.step.DoPromote? {
      var rows := Take(PendingRows(s.landing, ev.step.ids), ev.step.limit);
      PromotionStages(e, s, ev.at, rows, |s.batches|, ev.step.pick);
      var s' := Next(e, s, ev);
      forall i | |s.staging| <= i < |s'.staging| ensures WellReviewed(s'.staging[i]) {
        AssessedRow(e, s, ev.at, s'.staging[i].landingId, |s.batches|, ev.step.pick);
      }
    }
  }

  /** Of the six statuses the column admits only three are reachable, and the valid flag never lies. */
  lemma {:induction false} StatusesReachable(e: Entity, events: seq<Event>)
    ensures AllReviewed(Run(e, events).staging)
  {
    if events != [] {
      StatusesReachable(e, events[..|events| - 1]);
      ReviewedStep(e, Run(e, events[..|events| - 1]), events[|events| - 1]);
    }
  }

  /** Applied rows are final. */
  ghost predicate KeepsApplied(before: seq<StagingRow>, after: seq<StagingRow>) {
    |before| <= |after| && forall i :: 0 <= i < |before| && before[i].status == Applied ==> after[i] == before[i]
  }

  lemma KeepsAppliedStep(e: Entity, s: State, ev: Event)
    ensures KeepsApplied(s.staging, Next(e, s, ev).staging)
  {
    hide Validation.Validated, ChangeFor, Apply, Stageable, PromoteRows, Assess;
    if ev.step.DoPromote? {
      var rows := Take(PendingRows(s.landing, ev.step.ids), ev.step.limit);
      PromotionStages(e, s, ev.at, rows, |s.batches|, ev.step.pick);
    }
  }

  lemma {:induction false} AppliedIsFinal(e: Entity, events: seq<Event>, n: nat)
    requires n <= |events|
    ensures KeepsApplied(Run(e, events[..n]).staging, Run(e, events).staging)
    decreases |events|
  {
    hide Next;
    if n == |events| {
      assert events[..n] == events;
    } else {
      var before := events[..|events| - 1];
      assert before[..n] == events[..n];
      AppliedIsFinal(e, before, n);
      KeepsAppliedStep(e, Run(e, before), events[|events| - 1]);
    }
  }

  // ---------------------------------------------------------------- segregation of duties

  /** The last steward whose edit of a row went through. */
  function LastEditor(e: Entity, events: seq<Event>, sid: nat): Option<string> {
    if events == [] then None
    else
      var before, last := events[..|events| - 1], events[|events| - 1];
      if last.step.DoEdit? && last.step.sid == sid
         && EditVerdict(e, Run(e, before), last.at, sid, last.step.updates, last.step.actor).Edited?
      then Some(last.step.actor)
      else LastEditor(e, before, sid)
  }

  lemma {:induction false} NoEditorYet(e: Entity, events: seq<Event>, sid: nat)
    requires |Run(e, events).staging| <= sid
    ensures LastEditor(e, events, sid).None?
  {
    if events != [] {
      hide Next;
      var before, last := events[..|events| - 1], events[|events| - 1];
      KeepsAppliedStep(e, Run(e, before), last);
      NoEditorYet(e, before, sid);
    }
  }

  /** Where a staged row's editor comes from: the event itself, the row before it, or nowhere. */
  lemma EditorStep(e: Entity, s: State, ev: Event, sid: nat)
    requires sid < |Next(e, s, ev).staging|
    ensures Next(e, s, ev).staging[sid].editedBy ==
      if ev.step.DoEdit? && ev.step.sid == sid && EditVerdict(e, s, ev.at, sid, ev.step.updates, ev.step.actor).Edited?
      then Some(ev.step.actor)
      else if sid < |s.staging| then s.staging[sid].editedBy else None
  {
    hide Validation.Validated, ChangeFor, Apply, Stageable, PromoteRows, Assess;
    if ev.step.DoPromote? {
      var rows := Take(PendingRows(s.landing, ev.step.ids), ev.step.limit);
      PromotionStages(e, s, ev.at, rows, |s.batches|, ev.step.pick);
      if |s.staging| <= sid {
        AssessedRow(e, s, ev.at, Next(e, s, ev).staging[sid].landingId, |s.batches|, ev.step.pick);
      }
    }
  }

  lemma {:induction false} EditorTracked(e: Entity, events: seq<Event>, sid: nat)
    requires sid < |Run(e, events).staging|
    ensures Run(e, events).staging[sid].editedBy == LastEditor(e, events, sid)
  {
    hide Next;
    if events != [] {
      var before, last := events[..|events| - 1], events[|events| - 1];
      EditorStep(e, Run(e, before), last, sid);
      if sid < |Run(e, before).staging| {
        EditorTracked(e, before, sid);
      } else {
        NoEditorYet(e, before, sid);
      }
    }
  }

  predicate Segregated(r: StagingRow) {
    r.status == Applied ==> r.reviewedBy.Some? && !BySelf(r, r.reviewedBy.value)
  }

  ghost predicate AllSegregated(staging: seq<StagingRow>) {
    forall i :: 0 <= i < |staging| ==> Segregated(staging[i])
  }

  predicate EnforcesSod(ev: Event) {
    ev.step.DoApprove? ==> ev.step.sod
  }

  lemma SegregatedStep(e: Entity, s: State, ev: Event)
    requires AllSegregated(s.staging) && EnforcesSod(ev)
    ensures AllSegregated(Next(e, s, ev).staging)
  {
    hide Validation.Validated, ChangeFor, Apply, Stageable, PromoteRows, Assess;
    if ev.step.DoPromote? {
      var rows := Take(PendingRows(s.landing, ev.step.ids), ev.step.limit);
      PromotionStages(e, s, ev.at, rows, |s.batches|, ev.step.pick);
      var s' := Next(e, s, ev);
      forall i | |s.staging| <= i < |s'.staging| ensures Segregated(s'.staging[i]) {
        AssessedRow(e, s, ev.at, s'.staging[i].landingId, |s.batches|, ev.step.pick);
      }
    }
  }

  lemma {:induction false} SegregationKept(e: Entity, events: seq<Event>)
    requires forall ev :: ev in events ==> EnforcesSod(ev)
    ensures AllSegregated(Run(e, events).staging)
  {
    if events != [] {
      SegregationKept(e, events[..|events| - 1]);
      assert EnforcesSod(events[|events| - 1]);
      SegregatedStep(e, Run(e, events[..|events| - 1]), events[|events| - 1]);
    }
  }

  /**
   With segregation enforced, an applied row was approved by someone other than its last editor,
   or, if nobody is on record as having edited it, other than whoever submitted the landed write.
   */
  lemma SegregationOfDuties(e: Entity, events: seq<Event>, sid: nat)
    requires forall ev :: ev in events ==> EnforcesSod(ev)
    requires sid < |Run(e, events).staging| && Run(e, events).staging[sid].status == Applied
    ensures var s := Run(e, events);
      var r, editor := s.staging[sid], LastEditor(e, events, sid);
      && r.reviewedBy.Some? && r.landingId < |s.landing|
      && (Truthy(editor) ==> r.reviewedBy != editor)
      && (!Truthy(editor) && Truthy(s.landing[r.landingId].submittedBy) ==>
          r.reviewedBy != s.landing[r.landingId].submittedBy)
  {
    SegregationKept(e, events);
    EditorTracked(e, events, sid);
    LandingConserved(e, events);
    assert Segregated(Run(e, events).staging[sid]);
  }
}
