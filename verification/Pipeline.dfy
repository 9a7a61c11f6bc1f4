/**
 The four tiers as one state, and what each pipeline operation does to it
 (app/services/pipeline.py). Every operation is one transaction: it either takes effect as a
 whole or leaves the tables as they were. Identity columns are row positions.
 */
module Pipeline {
  import opened Common
  import opened Values
  import opened EntityModel
  import opened Validation
  import opened Ledger
  import opened Matching

  // ---------------------------------------------------------------- rows

  /** The values the landing status column admits. */
  datatype LandingStatus = Pending | Promoted | Withdrawn | Errored

  datatype LandingRow = LandingRow(
    op: Operation,
    payload: Row,
    target: Target,
    source: Option<string>,
    batch: Option<nat>,
    key: Option<string>,
    submittedBy: Option<string>,
    receivedAt: Time,
    status: LandingStatus,
    processedAt: Option<Time>)

  /** The values the staging status column admits. */
  datatype ReviewStatus = PendingReview | ChangesRequested | Approved | Rejected | Applied | Failed

  datatype ChangeType = Creation | Revision | Deletion

  datatype StagingRow = StagingRow(
    landingId: nat,
    op: Operation,
    target: Option<RecordId>,
    matchKey: Option<string>,
    source: Option<string>,
    batch: nat,
    status: ReviewStatus,
    faults: set<Fault>,
    isValid: bool,
    changeType: ChangeType,
    submittedBy: Option<string>,
    submittedAt: Time,
    editedBy: Option<string>,
    editedAt: Option<Time>,
    reviewedBy: Option<string>,
    reviewedAt: Option<Time>,
    note: Option<string>,
    supplied: set<string>,
    values: Row)

  datatype Batch = Batch(triggeredBy: string, rowsIn: nat, rowsOk: nat, rowsFailed: nat, withErrors: bool)

  datatype State = State(landing: seq<LandingRow>, staging: seq<StagingRow>, book: Book, batches: seq<Batch>)

  const INITIAL := State([], [], EMPTY, [])

  // ---------------------------------------------------------------- landing

  datatype WriteRequest = WriteRequest(
    op: Operation,
    payload: Row,
    target: Target,
    source: Option<string>,
    submittedBy: Option<string>,
    batch: Option<nat>,
    key: Option<string>)

  datatype Receipt =
    | Landed(landingId: nat)
    | Deduplicated(landingId: nat, status: LandingStatus)
    | BadOperation
    | KeyClash

  /** The landing row that holds an idempotency key. */
  function FindKey(landing: seq<LandingRow>, key: string): (found: Option<nat>)
    ensures found.Some? ==> found.value < |landing| && landing[found.value].key == Some(key)
    ensures found.None? ==> forall i :: 0 <= i < |landing| ==> landing[i].key != Some(key)
  {
    if landing == [] then None
    else
      var n := |landing| - 1;
      var earlier := FindKey(landing[..n], key);
      if earlier.Some? then earlier else if landing[n].key == Some(key) then Some(n) else None
  }

  /** An empty key is never looked up, yet the unique index covers it. */
  function Receive(landing: seq<LandingRow>, w: WriteRequest): Receipt {
    if w.op.OpOther? then BadOperation
    else
      var held := if w.key.Some? then FindKey(landing, w.key.value) else None;
      if held.None? then Landed(|landing|)
      else if Truthy(w.key) then Deduplicated(held.value, landing[held.value].status)
      else KeyClash
  }

  function NewLandingRow(now: Time, w: WriteRequest): LandingRow {
    LandingRow(w.op, w.payload, w.target, w.source, w.batch, w.key, w.submittedBy, now, Pending, None)
  }

  function Write(s: State, now: Time, w: WriteRequest): State {
    if Receive(s.landing, w).Landed? then s.(landing := s.landing + [NewLandingRow(now, w)]) else s
  }

  // ---------------------------------------------------------------- landing to staging

  predicate Partial(op: Operation) {
    op.OpUpdate? || op.OpDelete?
  }

  /** A staging row's columns: what validation produced, and the DDL default of everything else. */
  function Filled(attrs: seq<Attribute>, values: Row): Row {
    if attrs == [] then map[]
    else
      var a := attrs[|attrs| - 1];
      Filled(attrs[..|attrs| - 1], values)[a.name := if a.name in values then values[a.name] else a.ddlDefault]
  }

  /** Staging columns are typed but may be null. */
  predicate Stageable(e: Entity, values: Row) {
    forall a :: a in e.attributes ==> Storable(a, At(values, a.name))
  }

  datatype Assessment = Unstageable | Stage(row: StagingRow)

  /** What promotion makes of one landing row. */
  function Assess(e: Entity, live: map<RecordId, GoldenRow>, now: Time, r: LandingRow, i: nat, batch: nat,
                  pick: Chooser): Assessment {
    var outcome := Validated(e, r.payload, Partial(r.op));
    var columns := Filled(e.attributes, outcome.values);
    match Resolve(e, live, outcome.values, r.target, r.op, pick)
    case CastFailed => Unstageable
    case Resolved(target, found) =>
      if !Stageable(e, columns) then Unstageable
      else
        var faults := outcome.faults + found + When(r.op.OpDelete? && target.None?, "_record", NotFound);
        Stage(StagingRow(i, r.op, target, MatchKey(e, outcome.values), r.source, batch, PendingReview,
                         faults, faults == {},
                         if r.op.OpDelete? then Deletion else if target.Some? then Revision else Creation,
                         r.submittedBy, now, None, None, None, None, None,
                         Names(e.attributes) * r.payload.Keys, columns))
  }

  predicate IsPending(landing: seq<LandingRow>, ids: set<nat>, i: nat)
    requires i < |landing|
  {
    landing[i].status == Pending && (ids == {} || i in ids)
  }

  /** Pending rows in landing order; an empty list of ids asks for all of them. */
  function PendingRows(landing: seq<LandingRow>, ids: set<nat>): (rows: seq<nat>)
    ensures forall j :: 0 <= j < |rows| ==> rows[j] < |landing| && IsPending(landing, ids, rows[j])
    ensures forall j, k :: 0 <= j < k < |rows| ==> rows[j] < rows[k]
    ensures forall i: nat :: i < |landing| && IsPending(landing, ids, i) ==> i in rows
  {
    if landing == [] then []
    else
      var n := |landing| - 1;
      var earlier := PendingRows(landing[..n], ids);
      assert forall i: nat :: i < n ==> IsPending(landing, ids, i) == IsPending(landing[..n], ids, i);
      if IsPending(landing, ids, n) then earlier + [n] else earlier
  }

  function Take<T>(xs: seq<T>, limit: nat): seq<T> {
    if |xs| <= limit then xs else xs[..limit]
  }

  function Processed(r: LandingRow, now: Time, status: LandingStatus): LandingRow {
    r.(status := status, processedAt := Some(now))
  }

  datatype Progress = Progress(landing: seq<LandingRow>, staging: seq<StagingRow>, ok: nat, failed: nat)

  function PromoteRow(e: Entity, live: map<RecordId, GoldenRow>, p: Progress, now: Time, i: nat, batch: nat,
                      pick: Chooser): (p': Progress)
    requires i < |p.landing|
    ensures |p'.landing| == |p.landing|
  {
    match Assess(e, live, now, p.landing[i], i, batch, pick)
    case Stage(row) =>
      Progress(p.landing[i := Processed(p.landing[i], now, Promoted)], p.staging + [row], p.ok + 1, p.failed)
    case Unstageable =>
      Progress(p.landing[i := Processed(p.landing[i], now, Errored)], p.staging, p.ok, p.failed + 1)
  }

  function PromoteRows(e: Entity, s: State, now: Time, rows: seq<nat>, batch: nat, pick: Chooser): (p: Progress)
    requires forall j :: 0 <= j < |rows| ==> rows[j] < |s.landing|
    ensures |p.landing| == |s.landing|
  {
    if rows == [] then Progress(s.landing, s.staging, 0, 0)
    else
      var n := |rows| - 1;
      PromoteRow(e, s.book.live, PromoteRows(e, s, now, rows[..n], batch, pick), now, rows[n], batch, pick)
  }

  function Promote(e: Entity, s: State, now: Time, ids: set<nat>, limit: nat, actor: string, pick: Chooser): State {
    var rows := Take(PendingRows(s.landing, ids), limit);
    var p := PromoteRows(e, s, now, rows, |s.batches|, pick);
    State(p.landing, p.staging, s.book, s.batches + [Batch(actor, |rows|, p.ok, p.failed, p.failed > 0)])
  }

  // ---------------------------------------------------------------- review

  datatype EditReply =
    | EditNoRow
    | EditTooLate
    | EditUnknownField
    | EditViolation
    | Edited(faults: set<Fault>)

  /** The row a steward's edit leaves behind; resolution is not repeated. */
  function EditedRow(e: Entity, r: StagingRow, now: Time, updates: Row, actor: string): StagingRow {
    var outcome := Validated(e, r.values + updates, Partial(r.op));
    r.(values := r.values + outcome.values, faults := outcome.faults, isValid := outcome.faults == {},
       matchKey := MatchKey(e, outcome.values), editedBy := Some(actor), editedAt := Some(now),
       status := PendingReview, supplied := r.supplied + updates.Keys)
  }

  function EditVerdict(e: Entity, s: State, now: Time, sid: nat, updates: Row, actor: string): EditReply {
    if sid >= |s.staging| then EditNoRow
    else if s.staging[sid].status == Applied then EditTooLate
    else if !(updates.Keys <= Names(e.attributes)) then EditUnknownField
    else
      var row := EditedRow(e, s.staging[sid], now, updates, actor);
      if Stageable(e, row.values) then Edited(row.faults) else EditViolation
  }

  function Edit(e: Entity, s: State, now: Time, sid: nat, updates: Row, actor: string): State {
    if EditVerdict(e, s, now, sid, updates, actor).Edited? then
      s.(staging := s.staging[sid := EditedRow(e, s.staging[sid], now, updates, actor)])
    else s
  }

  predicate Rejectable(s: State, sid: nat) {
    sid < |s.staging| && s.staging[sid].status != Applied
  }

  function RejectedRow(r: StagingRow, now: Time, actor: string, reason: string): StagingRow {
    r.(status := Rejected, reviewedBy := Some(actor), reviewedAt := Some(now), note := Some(reason))
  }

  function Reject(s: State, now: Time, sid: nat, actor: string, reason: string): State {
    if Rejectable(s, sid) then s.(staging := s.staging[sid := RejectedRow(s.staging[sid], now, actor, reason)]) else s
  }

  // ---------------------------------------------------------------- staging to live

  datatype Refusal = NoSuchRow | AlreadyDecided | HasFaults | OwnWork | GoldenRecordGone

  /** `Violated` is a database error: nothing changes and, unlike a refusal, it is not a PipelineError. */
  datatype Verdict = Refused(why: Refusal) | Violated | Granted(change: Change)

  /** `row["mdm_edited_by"] or row["mdm_submitted_by"]`. */
  function Originator(r: StagingRow): Option<string> {
    if Truthy(r.editedBy) then r.editedBy else r.submittedBy
  }

  predicate BySelf(r: StagingRow, actor: string) {
    Truthy(Originator(r)) && Originator(r).value == actor
  }

  /** The columns an approved update sets. With nothing supplied, every non-null staging column. */
  function SetsOf(r: StagingRow): Row {
    if r.supplied != {} then map k | k in r.supplied && k in r.values :: r.values[k]
    else map k | k in r.values && r.values[k] != Null :: r.values[k]
  }

  /** Live enforces NOT NULL and column sizes. */
  predicate ColumnsFit(e: Entity, values: Row) {
    forall a :: a in e.attributes ==>
      (a.required ==> !At(values, a.name).Null?) && Storable(a, At(values, a.name))
  }

  /** The partial unique indexes: two active rows never share a non-null unique value. */
  predicate Clashes(e: Entity, g: GoldenRow, h: GoldenRow) {
    && !g.deleted && !h.deleted
    && exists a ::
         a in e.attributes && a.unique && !At(g.values, a.name).Null? && At(g.values, a.name) == At(h.values, a.name)
  }

  predicate Acceptable(e: Entity, live: map<RecordId, GoldenRow>, id: RecordId, row: GoldenRow) {
    ColumnsFit(e, row.values) && forall other :: other in live && other != id ==> !Clashes(e, row, live[other])
  }

  /** The golden change an approved row stands for, or why there is none. */
  function ChangeFor(e: Entity, b: Book, now: Time, r: StagingRow, sid: nat, actor: string, newId: RecordId): Verdict {
    if r.op.OpDelete? then
      if r.target.None? then Violated
      else if r.target.value !in b.live then Refused(GoldenRecordGone)
      else Granted(if e.softDelete then SoftDelete(r.target.value, actor) else HardDelete(r.target.value, actor))
    else if r.target.Some? then
      if r.target.value !in b.live then Refused(GoldenRecordGone)
      else
        var row := AmendedRow(b.live[r.target.value], now, SetsOf(r), actor, sid);
        if SetsOf(r) == map[] || Acceptable(e, b.live, r.target.value, row)
        then Granted(Amend(r.target.value, SetsOf(r), actor, sid)) else Violated
    else
      var c := Insert(newId, r.values, actor, sid, r.source);
      if newId !in Known(b) && Acceptable(e, b.live, newId, FreshRow(now, c)) then Granted(c) else Violated
  }

  function ApproveVerdict(e: Entity, s: State, now: Time, sid: nat, actor: string, sod: bool,
                          newId: RecordId): Verdict {
    if sid >= |s.staging| then Refused(NoSuchRow)
    else
      var r := s.staging[sid];
      if r.status == Applied || r.status == Rejected then Refused(AlreadyDecided)
      else if !r.isValid then Refused(HasFaults)
      else if sod && BySelf(r, actor) then Refused(OwnWork)
      else ChangeFor(e, s.book, now, r, sid, actor, newId)
  }

  function AppliedRow(r: StagingRow, now: Time, actor: string, note: Option<string>): StagingRow {
    r.(status := Applied, reviewedBy := Some(actor), reviewedAt := Some(now), note := note)
  }

  function Approve(e: Entity, s: State, now: Time, sid: nat, actor: string, sod: bool, note: Option<string>,
                   newId: RecordId): State {
    match ApproveVerdict(e, s, now, sid, actor, sod, newId)
    case Granted(c) =>
      s.(staging := s.staging[sid := AppliedRow(s.staging[sid], now, actor, note)], book := Apply(s.book, now, c))
    case _ => s
  }

  // ---------------------------------------------------------------- runs

  datatype Step =
    | DoWrite(w: WriteRequest)
    | DoPromote(ids: set<nat>, limit: nat, actor: string, pick: Chooser)
    | DoEdit(sid: nat, updates: Row, actor: string)
    | DoReject(sid: nat, actor: string, reason: string)
    | DoApprove(sid: nat, actor: string, sod: bool, note: Option<string>, newId: RecordId)

  datatype Event = Event(at: Time, step: Step)

  function Next(e: Entity, s: State, ev: Event): State {
    match ev.step
    case DoWrite(w) => Write(s, ev.at, w)
    case DoPromote(ids, limit, actor, pick) => Promote(e, s, ev.at, ids, limit, actor, pick)
    case DoEdit(sid, updates, actor) => Edit(e, s, ev.at, sid, updates, actor)
    case DoReject(sid, actor, reason) => Reject(s, ev.at, sid, actor, reason)
    case DoApprove(sid, actor, sod, note, newId) => Approve(e, s, ev.at, sid, actor, sod, note, newId)
  }

  /** The state after any sequence of operations on empty tables. */
  function Run(e: Entity, events: seq<Event>): State {
    if events == [] then INITIAL
    else Next(e, Run(e, events[..|events| - 1]), events[|events| - 1])
  }

  lemma NextApproves(e: Entity, s: State, ev: Event)
    requires ev.step.DoApprove?
    ensures Next(e, s, ev) == Approve(e, s, ev.at, ev.step.sid, ev.step.actor, ev.step.sod, ev.step.note, ev.step.newId)
  {
    hide Approve;
  }
}
