/**
 The four-tier pipeline refines the golden book: whatever interleaving of writes, promotions,
 edits, rejections and approvals happens, the live and history tiers are a replay of the
 granted changes alone. What was proved of the book then holds of every run.
 */
module Refinement {
  import opened Values
  import opened EntityModel
  import opened Ledger
  import opened Matching
  import opened Pipeline

  /** The golden change an event makes, if any. */
  function EntryOf(e: Entity, s: State, ev: Event): seq<Entry> {
    match ev.step
    case DoApprove(sid, actor, sod, _, newId) =>
      var v := ApproveVerdict(e, s, ev.at, sid, actor, sod, newId);
      if v.Granted? then [Entry(ev.at, v.change)] else []
    case _ => []
  }

  /** The granted changes of a run, in approval order. */
  function LogOf(e: Entity, events: seq<Event>): seq<Entry> {
    if events == [] then []
    else
      var before, last := events[..|events| - 1], events[|events| - 1];
      LogOf(e, before) + EntryOf(e, Run(e, before), last)
  }

  ghost predicate Chronological(events: seq<Event>) {
    forall i, j :: 0 <= i < j < |events| ==> events[i].at <= events[j].at
  }

  lemma ReplayConcat(log: seq<Entry>, last: Entry)
    ensures Replay(log + [last]) == Apply(Replay(log), last.at, last.change)
  {
    assert (log + [last])[..|log|] == log;
  }

  /** Every event but a granted approval leaves the golden tiers alone. */
  lemma OnlyApprovalsChange(e: Entity, s: State, ev: Event)
    ensures var entry := EntryOf(e, s, ev);
      Next(e, s, ev).book == if entry == [] then s.book else Apply(s.book, entry[0].at, entry[0].change)
  {
    hide ApproveVerdict, Apply, PromoteRows, PendingRows, EditVerdict, EditedRow, Receive;
  }

  /** Refinement: live and history are the replay of the granted changes; all other events stutter. */
  lemma {:induction false} PipelineRefinesBook(e: Entity, events: seq<Event>)
    ensures Run(e, events).book == Replay(LogOf(e, events))
  {
    if events != [] {
      hide ApproveVerdict, Apply, PromoteRows, PendingRows, Edit, Reject, Write;
      var before, last := events[..|events| - 1], events[|events| - 1];
      PipelineRefinesBook(e, before);
      var s := Run(e, before);
      OnlyApprovalsChange(e, s, last);
      var entry := EntryOf(e, s, last);
      if entry == [] {
        assert LogOf(e, before) + [] == LogOf(e, before);
      } else {
        ReplayConcat(LogOf(e, before), entry[0]);
      }
    }
  }

  // ---------------------------------------------------------------- counting

  function AppliedIds(s: State): set<nat> {
    set i: nat | i < |s.staging| && s.staging[i].status == Applied
  }

  /** Promotion appends rows that await review and leaves the others alone. */
  lemma {:induction false} PromotionAppends(e: Entity, s: State, now: Time, rows: seq<nat>, batch: nat, pick: Chooser)
    requires forall j :: 0 <= j < |rows| ==> rows[j] < |s.landing|
    ensures var p := PromoteRows(e, s, now, rows, batch, pick);
      s.staging <= p.staging && forall j :: |s.staging| <= j < |p.staging| ==> p.staging[j].status == PendingReview
  {
    if rows != [] {
      hide Validation.Validated, Resolve, Filled, Stageable, MatchKey;
      PromotionAppends(e, s, now, rows[..|rows| - 1], batch, pick);
    }
  }

  /** A granted change is always one the book can make. */
  lemma GrantedEnabled(e: Entity, s: State, at: Time, sid: nat, actor: string, sod: bool, newId: RecordId)
    requires ApproveVerdict(e, s, at, sid, actor, sod, newId).Granted?
    ensures Enabled(s.book, ApproveVerdict(e, s, at, sid, actor, sod, newId).change)
  {
    hide Acceptable, SetsOf, Known, BySelf;
  }

  lemma AppliedStep(e: Entity, s: State, ev: Event)
    ensures |AppliedIds(Next(e, s, ev))| == |AppliedIds(s)| + |EntryOf(e, s, ev)|
  {
    hide Validation.Validated, ChangeFor, Assess, Stageable, PendingRows, PromoteRows, Apply, BySelf, Receive, MatchKey;
    var s' := Next(e, s, ev);
    match ev.step {
      case DoPromote(ids, limit, actor, pick) =>
        PromotionAppends(e, s, ev.at, Take(PendingRows(s.landing, ids), limit), |s.batches|, pick);
        assert AppliedIds(s') == AppliedIds(s);
      case DoApprove(sid, actor, sod, note, newId) =>
        if EntryOf(e, s, ev) != [] {
          assert AppliedIds(s') == AppliedIds(s) + {sid};
        }
      case DoEdit(sid, updates, actor) =>
        assert AppliedIds(s') == AppliedIds(s);
      case DoReject(sid, actor, reason) =>
        assert AppliedIds(s') == AppliedIds(s);
      case DoWrite(_) =>
    }
  }

  /** Nothing approved is lost: applied staging rows are as many as records ever created plus history rows. */
  lemma {:induction false} AppliedAccounted(e: Entity, events: seq<Event>)
    ensures var s := Run(e, events); |AppliedIds(s)| == |Known(s.book)| + |s.book.history|
  {
    if events == [] {
      assert AppliedIds(INITIAL) == {} && Known(EMPTY) == {};
    } else {
      hide ApproveVerdict, Known, AppliedIds, Apply;
      var before, last := events[..|events| - 1], events[|events| - 1];
      AppliedAccounted(e, before);
      AppliedStep(e, Run(e, before), last);
      if EntryOf(e, Run(e, before), last) != [] {
        var step := last.step;
        GrantedEnabled(e, Run(e, before), last.at, step.sid, step.actor, step.sod, step.newId);
        ChangeCounts(Run(e, before).book, last.at, EntryOf(e, Run(e, before), last)[0].change);
      }
    }
  }

  // ---------------------------------------------------------------- looking back over a run

  /** The events no later than t, for a chronological run. */
  function EventsUpto(events: seq<Event>, t: Time): seq<Event> {
    if events == [] then []
    else if events[|events| - 1].at <= t then events
    else EventsUpto(events[..|events| - 1], t)
  }

  /** The tables as they stood at time t. */
  function StateAt(e: Entity, events: seq<Event>, t: Time): State {
    Run(e, EventsUpto(events, t))
  }

  lemma {:induction false} LogTimes(e: Entity, events: seq<Event>)
    requires Chronological(events)
    ensures Sorted(LogOf(e, events))
    ensures forall i :: 0 <= i < |LogOf(e, events)| ==>
        events != [] && LogOf(e, events)[i].at <= events[|events| - 1].at
  {
    if events != [] {
      LogTimes(e, events[..|events| - 1]);
    }
  }

  lemma {:induction false} UptoAll(log: seq<Entry>, t: Time)
    requires forall i :: 0 <= i < |log| ==> log[i].at <= t
    ensures Upto(log, t) == log
  {
  }

  lemma {:induction false} LogUpto(e: Entity, events: seq<Event>, t: Time)
    requires Chronological(events)
    ensures Upto(LogOf(e, events), t) == LogOf(e, EventsUpto(events, t))
  {
    if events != [] {
      var before, last := events[..|events| - 1], events[|events| - 1];
      LogTimes(e, events);
      if last.at <= t {
        UptoAll(LogOf(e, events), t);
      } else {
        LogUpto(e, before, t);
        var entry := EntryOf(e, Run(e, before), last);
        if entry == [] {
          assert LogOf(e, events) == LogOf(e, before);
        } else {
          assert LogOf(e, events)[..|LogOf(e, events)| - 1] == LogOf(e, before);
        }
      }
    }
  }

  /** The golden tiers at time t are the book as of t. */
  lemma BookAt(e: Entity, events: seq<Event>, t: Time)
    requires Chronological(events)
    ensures StateAt(e, events, t).book == AsOf(LogOf(e, events), t)
  {
    LogUpto(e, events, t);
    PipelineRefinesBook(e, EventsUpto(events, t));
  }

  /**
   Point-in-time reconstruction over every run of the pipeline: what live and history say today
   about time t is exactly what the live tier held at t.
   */
  lemma PipelinePointInTime(e: Entity, events: seq<Event>, id: RecordId, t: Time)
    requires Chronological(events)
    ensures var past, today := StateAt(e, events, t).book, Run(e, events).book;
      && (id in past.live <==> Covered(today, id, t) || (id in today.live && today.live[id].updatedAt <= t))
      && (forall h :: h in today.history && Covers(h, id, t) ==> Records(h, past.live[id]))
      && (id in today.live && today.live[id].updatedAt <= t ==> today.live[id] == past.live[id])
  {
    LogTimes(e, events);
    BookAt(e, events, t);
    PipelineRefinesBook(e, events);
    PointInTime(LogOf(e, events), id, t);
  }

  /** The version chain over every run of the pipeline. */
  lemma PipelineVersionChain(e: Entity, events: seq<Event>)
    ensures var b := Run(e, events).book;
      && (forall id :: id in b.live ==> b.live[id].version >= 1)
      && (forall id, v: nat :: id in b.live && 1 <= v < b.live[id].version ==> HasVersion(b, id, v))
      && (forall h :: h in b.history && h.id in b.live ==> 1 <= h.version <= b.live[h.id].version)
      && (forall h, g :: h in b.history && g in b.history && h.id == g.id && h.version == g.version
            ==> h.values == g.values && h.deleted == g.deleted && h.validFrom == g.validFrom)
      && GoneAreComplete(b)
  {
    PipelineRefinesBook(e, events);
    var log := LogOf(e, events);
    VersionChain(log);
    GoneChain(log);
    forall h, g | h in Replay(log).history && g in Replay(log).history && h.id == g.id && h.version == g.version
      ensures h.values == g.values && h.deleted == g.deleted && h.validFrom == g.validFrom
    {
      SameVersionSameRow(log, h, g);
    }
  }

  lemma {:induction false} LogPrefix(e: Entity, events: seq<Event>, k: nat)
    requires k <= |events|
    ensures LogOf(e, events[..k]) <= LogOf(e, events)
    decreases |events|
  {
    if k == |events| {
      assert events[..k] == events;
    } else {
      assert events[..|events| - 1][..k] == events[..k];
      LogPrefix(e, events[..|events| - 1], k);
    }
  }

  /** Whatever a golden record looked like at any point of a run stays on record under its version. */
  lemma PipelineRemembers(e: Entity, events: seq<Event>, k: nat, id: RecordId)
    requires k <= |events| && id in Run(e, events[..k]).book.live
    ensures Remembers(Run(e, events).book, id, Run(e, events[..k]).book.live[id])
  {
    PipelineRefinesBook(e, events);
    PipelineRefinesBook(e, events[..k]);
    LogPrefix(e, events, k);
    var log, n := LogOf(e, events), |LogOf(e, events[..k])|;
    assert log[..n] == LogOf(e, events[..k]);
    VersionChain(log);
  }

  /**
   After an approval that hard-deleted a record at version n, history covers exactly 1..n at every
   later point of the run.
   */
  lemma PipelineHardDeletedChain(e: Entity, events: seq<Event>, k: nat, id: RecordId)
    requires k < |events| && id in Run(e, events[..k]).book.live
    requires var entry := EntryOf(e, Run(e, events[..k]), events[k]);
      entry != [] && entry[0].change.HardDelete? && entry[0].change.id == id
    ensures var b := Run(e, events).book;
      id !in b.live && id in Known(b) && VersionsAre(b, id, Run(e, events[..k]).book.live[id].version)
  {
    hide Run, EntryOf, Replay, VersionsAre;
    PipelineRefinesBook(e, events);
    PipelineRefinesBook(e, events[..k]);
    LogPrefix(e, events, k + 1);
    var log, before := LogOf(e, events), LogOf(e, events[..k]);
    assert events[..k + 1][..k] == events[..k];
    assert log[..|before|] == before && log[|before|] == EntryOf(e, Run(e, events[..k]), events[k])[0];
    HardDeletedChain(log, |before|, id);
  }
}
