/**
 Idempotent intake (app/services/pipeline.py `write_to_landing`, app/api/v1/data.py `_write`):
 repeating a write under its idempotency key changes nothing, over any run.
 */
module Intake {
  import opened Common
  import opened Values
  import opened EntityModel
  import opened Pipeline
  import opened Conservation

  datatype Arrival = Arrival(at: Time, w: WriteRequest)

  function LandOne(landing: seq<LandingRow>, a: Arrival): seq<LandingRow> {
    if Receive(landing, a.w).Landed? then landing + [NewLandingRow(a.at, a.w)] else landing
  }

  /** The landing table after a sequence of writes. */
  function LandAll(landing: seq<LandingRow>, arrivals: seq<Arrival>): seq<LandingRow> {
    if arrivals == [] then landing
    else LandOne(LandAll(landing, arrivals[..|arrivals| - 1]), arrivals[|arrivals| - 1])
  }

  /** An earlier supported write carries the same idempotency key. */
  predicate Repeats(earlier: seq<Arrival>, a: Arrival) {
    a.w.key.Some? && exists i :: 0 <= i < |earlier| && !earlier[i].w.op.OpOther? && earlier[i].w.key == a.w.key
  }

  /** The writes left after deleting every one that repeats an earlier key. */
  function WithoutRepeats(arrivals: seq<Arrival>): seq<Arrival> {
    if arrivals == [] then []
    else
      var n := |arrivals| - 1;
      WithoutRepeats(arrivals[..n]) + if Repeats(arrivals[..n], arrivals[n]) then [] else [arrivals[n]]
  }

  ghost predicate Holds(landing: seq<LandingRow>, key: string) {
    exists i :: 0 <= i < |landing| && landing[i].key == Some(key)
  }

  /** A key is in the table once a supported write has carried it. */
  lemma {:induction false} KeyHeld(landing: seq<LandingRow>, arrivals: seq<Arrival>, i: nat)
    requires i < |arrivals| && !arrivals[i].w.op.OpOther? && arrivals[i].w.key.Some?
    ensures Holds(LandAll(landing, arrivals), arrivals[i].w.key.value)
    decreases |arrivals|
  {
    var n, key := |arrivals| - 1, arrivals[i].w.key.value;
    var before, after := LandAll(landing, arrivals[..n]), LandAll(landing, arrivals);
    if i < n {
      KeyHeld(landing, arrivals[..n], i);
      var j :| 0 <= j < |before| && before[j].key == Some(key);
      assert after[j].key == Some(key);
    } else if FindKey(before, key).Some? {
      assert after[FindKey(before, key).value].key == Some(key);
    } else {
      assert after[|before|].key == Some(key);
    }
  }

  /** A write whose key an earlier one carried does not land. */
  lemma RepeatBounces(landing: seq<LandingRow>, earlier: seq<Arrival>, a: Arrival)
    requires Repeats(earlier, a)
    ensures LandOne(LandAll(landing, earlier), a) == LandAll(landing, earlier)
  {
    hide LandAll;
    var i :| 0 <= i < |earlier| && !earlier[i].w.op.OpOther? && earlier[i].w.key == a.w.key;
    KeyHeld(landing, earlier, i);
  }

  /** Writes that repeat a key might as well never have been sent. */
  lemma {:induction false} RepeatsChangeNothing(landing: seq<LandingRow>, arrivals: seq<Arrival>)
    ensures LandAll(landing, arrivals) == LandAll(landing, WithoutRepeats(arrivals))
  {
    hide Repeats, LandOne;
    if arrivals != [] {
      var n := |arrivals| - 1;
      RepeatsChangeNothing(landing, arrivals[..n]);
      var kept := WithoutRepeats(arrivals[..n]);
      if Repeats(arrivals[..n], arrivals[n]) {
        RepeatBounces(landing, arrivals[..n], arrivals[n]);
        assert kept + [] == kept;
      } else {
        assert (kept + [arrivals[n]])[..|kept|] == kept;
      }
    }
  }

  // ---------------------------------------------------------------- over a run

  /** The receipt a write gets at position i of a run. */
  function ReceiptAt(e: Entity, events: seq<Event>, i: nat): Receipt
    requires i < |events| && events[i].step.DoWrite?
  {
    Receive(Run(e, events[..i]).landing, events[i].step.w)
  }

  predicate Acknowledges(r: Receipt, landingId: nat) {
    (r.Landed? || r.Deduplicated?) && r.landingId == landingId
  }

  lemma {:induction false} FindKeyFirst(landing: seq<LandingRow>, key: string, i: nat)
    requires i < |landing| && landing[i].key == Some(key)
    requires forall j :: 0 <= j < i ==> landing[j].key != Some(key)
    ensures FindKey(landing, key) == Some(i)
  {
    var n := |landing| - 1;
    if i < n {
      FindKeyFirst(landing[..n], key, i);
    }
  }

  lemma {:induction false} FindKeyLeast(landing: seq<LandingRow>, key: string)
    ensures FindKey(landing, key).Some? ==> forall j :: 0 <= j < FindKey(landing, key).value ==>
        landing[j].key != Some(key)
  {
    if landing != [] {
      FindKeyLeast(landing[..|landing| - 1], key);
    }
  }

  /** A key once held is found at the same place ever after. */
  lemma KeyStays(before: State, after: State, key: string)
    requires Retained(before, after) && FindKey(before.landing, key).Some?
    ensures FindKey(after.landing, key) == FindKey(before.landing, key)
  {
    var i := FindKey(before.landing, key).value;
    FindKeyLeast(before.landing, key);
    forall j | 0 <= j <= i ensures after.landing[j].key == before.landing[j].key {
      assert SameCapture(before.landing[j], after.landing[j]);
    }
    FindKeyFirst(after.landing, key, i);
  }

  /** After a supported keyed write the key is found, and where. */
  lemma KeyRegistered(s: State, now: Time, w: WriteRequest)
    requires w.key.Some? && !w.op.OpOther?
    ensures var found := FindKey(Write(s, now, w).landing, w.key.value);
      && found.Some?
      && (Receive(s.landing, w).KeyClash? || Acknowledges(Receive(s.landing, w), found.value))
  {
    if FindKey(s.landing, w.key.value).None? {
      FindKeyFirst(Write(s, now, w).landing, w.key.value, |s.landing|);
    }
  }

  /**
   Two supported writes under one key, anywhere in a run: the later one never lands, and it is
   acknowledged with the landing id of the earlier one exactly when the key is not empty. An
   empty key is stored but never looked up, so its second use runs into the unique index.
   */
  lemma SameKeySameLanding(e: Entity, events: seq<Event>, i: nat, j: nat)
    requires i < j < |events| && events[i].step.DoWrite? && events[j].step.DoWrite?
    requires !events[i].step.w.op.OpOther? && !events[j].step.w.op.OpOther?
    requires events[i].step.w.key.Some? && events[j].step.w.key == events[i].step.w.key
    ensures var key := events[i].step.w.key.value;
      var first, second := ReceiptAt(e, events, i), ReceiptAt(e, events, j);
      && (key != "" ==> exists id: nat :: Acknowledges(first, id) && Acknowledges(second, id) && second.Deduplicated?)
      && (key == "" ==> second == KeyClash)
    ensures Run(e, events[..j + 1]) == Run(e, events[..j])
  {
    var w := events[i].step.w;
    hide Promote, Edit, Reject, Approve;
    assert events[..i + 1][..i] == events[..i] && events[..j + 1][..j] == events[..j];
    assert events[..j][..i + 1] == events[..i + 1];
    assert Run(e, events[..i + 1]) == Write(Run(e, events[..i]), events[i].at, w);
    assert Run(e, events[..j + 1]) == Write(Run(e, events[..j]), events[j].at, events[j].step.w);
    hide Run;
    KeyRegistered(Run(e, events[..i]), events[i].at, w);
    CaptureRetained(e, events[..j], i + 1);
    KeyStays(Run(e, events[..i + 1]), Run(e, events[..j]), w.key.value);
    if w.key.value != "" {
      var id := FindKey(Run(e, events[..j]).landing, w.key.value).value;
      assert Acknowledges(ReceiptAt(e, events, i), id) && Acknowledges(ReceiptAt(e, events, j), id);
    }
  }

  /** An earlier supported write of the run carries the same idempotency key. */
  predicate RepeatsWrite(earlier: seq<Event>, ev: Event) {
    ev.step.DoWrite? && ev.step.w.key.Some? && exists i :: 0 <= i < |earlier| && Carries(earlier[i], ev.step.w.key)
  }

  predicate Carries(ev: Event, key: Option<string>) {
    ev.step.DoWrite? && !ev.step.w.op.OpOther? && ev.step.w.key == key
  }

  function WithoutRepeatedWrites(events: seq<Event>): seq<Event> {
    if events == [] then []
    else
      var before, last := events[..|events| - 1], events[|events| - 1];
      WithoutRepeatedWrites(before) + if RepeatsWrite(before, last) then [] else [last]
  }

  lemma RepeatedWriteStutters(e: Entity, events: seq<Event>)
    requires events != [] && RepeatsWrite(events[..|events| - 1], events[|events| - 1])
    ensures Run(e, events) == Run(e, events[..|events| - 1])
  {
    hide Run, Receive;
    var n := |events| - 1;
    var before, last := events[..n], events[n];
    var i :| 0 <= i < n && Carries(before[i], last.step.w.key);
    assert events[..n + 1] == events;
    if last.step.w.op.OpOther? {
      UnsupportedStutters(e, events);
    } else {
      SameKeySameLanding(e, events, i, n);
    }
  }

  lemma UnsupportedStutters(e: Entity, events: seq<Event>)
    requires events != [] && events[|events| - 1].step.DoWrite? && events[|events| - 1].step.w.op.OpOther?
    ensures Run(e, events) == Run(e, events[..|events| - 1])
  {
  }

  /** Over any run, the writes that repeat a key might as well never have been sent: all four tiers end up the same. */
  lemma {:induction false} RepeatsChangeNoRun(e: Entity, events: seq<Event>)
    ensures Run(e, events) == Run(e, WithoutRepeatedWrites(events))
  {
    hide Next, RepeatsWrite;
    if events != [] {
      var before, last := events[..|events| - 1], events[|events| - 1];
      var kept := WithoutRepeatedWrites(before);
      RepeatsChangeNoRun(e, before);
      if RepeatsWrite(before, last) {
        RepeatedWriteStutters(e, events);
        assert kept + [] == kept;
      } else {
        assert (kept + [last])[..|kept|] == kept;
      }
    }
  }
}
