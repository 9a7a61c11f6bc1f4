/**
 Lineage (docs/ARCHITECTURE.md, section 9): every value of a golden record, present or past, is
 traced back through the change that brought it to one applied staging row, and from there to the
 promoted landing row it came from.
 */
module Lineage {
  import opened Common
  import opened Values
  import opened EntityModel
  import opened Ledger
  import opened Pipeline
  import opened Refinement
  import opened Conservation
  import opened Review

  // ---------------------------------------------------------------- from values to changes

  /** The change set this value of the record, when it was created or later. */
  predicate Brings(c: Change, id: RecordId, name: string, v: Value) {
    match c
    case Insert(i, values, _, _, _) => i == id && name in values && values[name] == v
    case Amend(i, sets, _, _) => i == id && name in sets && sets[name] == v
    case _ => false
  }

  predicate BroughtBy(log: seq<Entry>, k: nat, id: RecordId, name: string, v: Value) {
    k < |log| && Brings(log[k].change, id, name, v)
  }

  ghost predicate Brought(log: seq<Entry>, id: RecordId, values: Row) {
    forall name :: name in values ==> exists k :: BroughtBy(log, k, id, name, values[name])
  }

  ghost predicate AllBrought(log: seq<Entry>, b: Book) {
    && (forall id :: id in b.live ==> Brought(log, id, b.live[id].values))
    && (forall h :: h in b.history ==> Brought(log, h.id, h.values))
  }

  lemma BroughtLater(log: seq<Entry>, last: Entry, id: RecordId, values: Row)
    requires Brought(log, id, values)
    ensures Brought(log + [last], id, values)
  {
    forall name | name in values ensures exists k :: BroughtBy(log + [last], k, id, name, values[name]) {
      var k :| BroughtBy(log, k, id, name, values[name]);
      assert BroughtBy(log + [last], k, id, name, values[name]);
    }
  }

  lemma BroughtNow(log: seq<Entry>, last: Entry, id: RecordId, values: Row, sets: Row)
    requires Brought(log, id, values)
    requires forall name :: name in sets ==> Brings(last.change, id, name, sets[name])
    ensures Brought(log + [last], id, values + sets)
  {
    BroughtLater(log, last, id, values);
    forall name | name in values + sets
      ensures exists k :: BroughtBy(log + [last], k, id, name, (values + sets)[name])
    {
      if name in sets {
        assert BroughtBy(log + [last], |log|, id, name, (values + sets)[name]);
      } else {
        var k :| BroughtBy(log + [last], k, id, name, values[name]);
        assert BroughtBy(log + [last], k, id, name, (values + sets)[name]);
      }
    }
  }

  lemma {:induction false} ValuesHaveChanges(log: seq<Entry>)
    ensures AllBrought(log, Replay(log))
  {
    if log != [] {
      var before, last := log[..|log| - 1], log[|log| - 1];
      assert log == before + [last];
      ValuesHaveChanges(before);
      var b, b' := Replay(before), Replay(log);
      forall id | id in b'.live ensures Brought(log, id, b'.live[id].values) {
        if id in b.live {
          BroughtLater(before, last, id, b.live[id].values);
        }
        if last.change.Insert? && Enabled(b, last.change) && last.change.id == id {
          BroughtNow(before, last, id, map[], last.change.values);
          assert map[] + last.change.values == last.change.values;
        } else if last.change.Amend? && Enabled(b, last.change) && last.change.id == id {
          BroughtNow(before, last, id, b.live[id].values, last.change.sets);
        }
      }
      forall h | h in b'.history ensures Brought(log, h.id, h.values) {
        if h in b.history {
          BroughtLater(before, last, h.id, h.values);
        } else {
          BroughtLater(before, last, h.id, b.live[h.id].values);
        }
      }
    }
  }

  // ---------------------------------------------------------------- from changes to staging rows

  /** The staging row a change that sets values names as its own. */
  function RowOf(c: Change): Option<nat> {
    if c.Insert? || c.Amend? then Some(c.stagingId) else None
  }

  /** The row is applied, was meant for that record, and holds the values the change set. */
  predicate Sourced(staging: seq<StagingRow>, c: Change) {
    match c
    case Insert(_, values, _, sid, _) =>
      sid < |staging| && staging[sid].status == Applied && staging[sid].target.None? && staging[sid].values == values
    case Amend(id, sets, _, sid) =>
      && sid < |staging| && staging[sid].status == Applied && staging[sid].target == Some(id)
      && forall name :: name in sets ==> name in staging[sid].values && staging[sid].values[name] == sets[name]
    case _ => true
  }

  /** Every change has its source, and no two share one. */
  ghost predicate AllSourced(staging: seq<StagingRow>, log: seq<Entry>) {
    && (forall k :: 0 <= k < |log| ==> Sourced(staging, log[k].change))
    && (forall j, k :: 0 <= j < k < |log| && RowOf(log[j].change).Some? ==>
        RowOf(log[j].change) != RowOf(log[k].change))
  }

  /** What a granted change sets comes from the row being applied, which was not applied before. */
  lemma GrantedSourced(e: Entity, s: State, at: Time, sid: nat, actor: string, sod: bool, newId: RecordId,
                       note: Option<string>)
    requires ApproveVerdict(e, s, at, sid, actor, sod, newId).Granted?
    ensures var c := ApproveVerdict(e, s, at, sid, actor, sod, newId).change;
      && Sourced(Approve(e, s, at, sid, actor, sod, note, newId).staging, c)
      && sid < |s.staging| && s.staging[sid].status != Applied
      && (RowOf(c).Some? ==> RowOf(c).value == sid)
  {
    hide Acceptable, BySelf, Apply;
  }

  /** A row that is not applied yet has no change of its own. */
  lemma LogRows(staging: seq<StagingRow>, log: seq<Entry>, sid: nat)
    requires AllSourced(staging, log) && sid < |staging| && staging[sid].status != Applied
    ensures forall k :: 0 <= k < |log| ==> RowOf(log[k].change) != Some(sid)
  {
    forall k | 0 <= k < |log| ensures RowOf(log[k].change) != Some(sid) {
      assert Sourced(staging, log[k].change);
    }
  }

  lemma SourcedLater(before: seq<StagingRow>, after: seq<StagingRow>, log: seq<Entry>)
    requires AllSourced(before, log) && KeepsApplied(before, after)
    ensures AllSourced(after, log)
  {
    forall k | 0 <= k < |log| ensures Sourced(after, log[k].change) {
      assert Sourced(before, log[k].change);
    }
  }

  lemma SourcedMore(staging: seq<StagingRow>, log: seq<Entry>, last: Entry)
    requires AllSourced(staging, log) && Sourced(staging, last.change)
    requires forall k :: 0 <= k < |log| && RowOf(log[k].change).Some? ==> RowOf(log[k].change) != RowOf(last.change)
    ensures AllSourced(staging, log + [last])
  {
    hide Sourced, RowOf;
  }

  lemma {:induction false} ChangesHaveRows(e: Entity, events: seq<Event>)
    ensures AllSourced(Run(e, events).staging, LogOf(e, events))
  {
    if events != [] {
      hide Next, ApproveVerdict, RowOf, Sourced, AllSourced;
      var before, last := events[..|events| - 1], events[|events| - 1];
      var s := Run(e, before);
      var staging, log := Next(e, s, last).staging, LogOf(e, before);
      ChangesHaveRows(e, before);
      KeepsAppliedStep(e, s, last);
      SourcedLater(s.staging, staging, log);
      var entry := EntryOf(e, s, last);
      if entry == [] {
        assert LogOf(e, events) == log;
      } else {
        var step := last.step;
        GrantedSourced(e, s, last.at, step.sid, step.actor, step.sod, step.newId, step.note);
        NextApproves(e, s, last);
        LogRows(s.staging, log, step.sid);
        SourcedMore(staging, log, entry[0]);
      }
    }
  }

  // ---------------------------------------------------------------- the whole way

  /** Entry k of the log brought the value, from an applied staging row that a promoted landing row produced. */
  predicate TracedBy(s: State, log: seq<Entry>, k: nat, id: RecordId, name: string, v: Value) {
    && BroughtBy(log, k, id, name, v)
    && Sourced(s.staging, log[k].change)
    && var r := s.staging[log[k].change.stagingId];
      name in r.values && r.values[name] == v && r.landingId < |s.landing| && s.landing[r.landingId].status == Promoted
  }

  lemma BroughtTraced(e: Entity, events: seq<Event>, k: nat, id: RecordId, name: string, v: Value)
    requires BroughtBy(LogOf(e, events), k, id, name, v)
    ensures TracedBy(Run(e, events), LogOf(e, events), k, id, name, v)
  {
    ChangesHaveRows(e, events);
    LandingConserved(e, events);
    hide Run, LogOf;
    assert Sourced(Run(e, events).staging, LogOf(e, events)[k].change);
  }

  /** A value the record holds, or a history row says it held. */
  predicate Holds(b: Book, id: RecordId, name: string, v: Value) {
    || (id in b.live && name in b.live[id].values && b.live[id].values[name] == v)
    || (exists h :: h in b.history && h.id == id && name in h.values && h.values[name] == v)
  }

  /**
   Lineage over every run: whatever value a golden record holds or ever held was set by an approved
   change, whose own staging row (no other change shares it) was applied with that very value and
   was staged from a promoted landing row.
   */
  lemma EveryValueTraced(e: Entity, events: seq<Event>, id: RecordId, name: string, v: Value)
    requires Holds(Run(e, events).book, id, name, v)
    ensures exists k :: TracedBy(Run(e, events), LogOf(e, events), k, id, name, v)
    ensures AllSourced(Run(e, events).staging, LogOf(e, events))
  {
    PipelineRefinesBook(e, events);
    ValuesHaveChanges(LogOf(e, events));
    ChangesHaveRows(e, events);
    var log := LogOf(e, events);
    hide Run, LogOf, Replay, Sourced, AllSourced, TracedBy;
    var k :| BroughtBy(log, k, id, name, v);
    BroughtTraced(e, events, k, id, name, v);
  }
}
