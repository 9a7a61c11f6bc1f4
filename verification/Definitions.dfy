/**
 The life of entity definitions: import, diff, create, update, publish and delete
 (app/services/model_io.py `diff_against_existing`, `apply_import`; app/api/v1/models_api.py).
 A request that fails, in validation or in the database, has no effect.
 */
module Definitions {
  import opened Common
  import opened Identifiers
  import opened Documents

  datatype Status = Draft | Published | Modified | Deprecated

  /** A stored entity; its attributes by name. */
  datatype EntityRec = EntityRec(
    head: Head,
    attributes: map<string, AttrDef>,
    status: Status,
    version: nat,
    publishedVersion: Option<nat>)

  /** A model_version row; `deployed` once publishing has recorded its DDL there. */
  datatype Snapshot = Snapshot(entity: string, version: nat, head: Head, attributes: map<string, AttrDef>,
                               deployed: bool)

  datatype Catalog = Catalog(entities: map<string, EntityRec>, snapshots: seq<Snapshot>)

  function SnapshotOf(r: EntityRec): Snapshot {
    Snapshot(r.head.name, r.version, r.head, r.attributes, false)
  }

  /** Storing a new or changed entity always writes its snapshot. */
  function Store(c: Catalog, r: EntityRec): Catalog {
    Catalog(c.entities[r.head.name := r], c.snapshots + [SnapshotOf(r)])
  }

  function Touched(s: Status): Status {
    if s == Published then Modified else s
  }

  /** `{a["name"]: a for a in attrs}`. */
  function ByName(attrs: seq<AttrDef>): map<string, AttrDef> {
    if attrs == [] then map[] else ByName(attrs[..|attrs| - 1])[attrs[|attrs| - 1].name := attrs[|attrs| - 1]]
  }

  // ---------------------------------------------------------------- import

  function Imported(c: Catalog, d: Definition, replace: bool): EntityRec {
    var incoming := ByName(d.attributes);
    if d.head.name in c.entities then
      var r := c.entities[d.head.name];
      var attributes := if replace then incoming else r.attributes + incoming;
      EntityRec(d.head, attributes, Touched(r.status), r.version + 1, r.publishedVersion)
    else EntityRec(d.head, incoming, Draft, 1, None)
  }

  function ImportAll(c: Catalog, defs: seq<Definition>, replace: bool): Catalog {
    if defs == [] then c
    else
      var before := ImportAll(c, defs[..|defs| - 1], replace);
      Store(before, Imported(before, defs[|defs| - 1], replace))
  }

  // ---------------------------------------------------------------- diff

  datatype Action = ToCreate | ToUpdate | NoChange

  datatype Report = Report(entity: string, action: Action, added: set<string>, removed: set<string>,
                           changed: set<string>, deployed: bool)

  predicate SameShape(a: AttrDef, b: AttrDef) {
    && a.dataType == b.dataType && a.length == b.length && a.required == b.required
    && a.unique == b.unique && a.precision == b.precision && a.scale == b.scale
  }

  predicate Deployed(s: Status) {
    s == Published || s == Modified
  }

  function Diff(c: Catalog, d: Definition): Report {
    var incoming := ByName(d.attributes);
    if d.head.name !in c.entities then Report(d.head.name, ToCreate, incoming.Keys, {}, {}, false)
    else
      var r := c.entities[d.head.name];
      var added, removed := incoming.Keys - r.attributes.Keys, r.attributes.Keys - incoming.Keys;
      var changed := set n | n in r.attributes && n in incoming && !SameShape(r.attributes[n], incoming[n]);
      Report(d.head.name, if added != {} || removed != {} || changed != {} then ToUpdate else NoChange,
             added, removed, changed, Deployed(r.status))
  }

  ghost predicate DistinctDefinitions(defs: seq<Definition>) {
    forall i, j :: 0 <= i < j < |defs| ==> defs[i].head.name != defs[j].head.name
  }

  /** Importing other definitions leaves an entity alone. */
  lemma {:induction false} ImportFrame(c: Catalog, defs: seq<Definition>, replace: bool, name: string)
    requires forall i :: 0 <= i < |defs| ==> defs[i].head.name != name
    ensures name in ImportAll(c, defs, replace).entities <==> name in c.entities
    ensures name in c.entities ==> ImportAll(c, defs, replace).entities[name] == c.entities[name]
  {
    if defs != [] {
      ImportFrame(c, defs[..|defs| - 1], replace, name);
    }
  }

  /** After importing distinct definitions each entity is what importing its own definition made it. */
  lemma {:induction false} ImportEach(c: Catalog, defs: seq<Definition>, replace: bool, i: nat)
    requires DistinctDefinitions(defs) && i < |defs|
    ensures defs[i].head.name in ImportAll(c, defs, replace).entities
    ensures ImportAll(c, defs, replace).entities[defs[i].head.name] == Imported(c, defs[i], replace)
    decreases |defs|
  {
    var n := |defs| - 1;
    if i == n {
      ImportFrame(c, defs[..n], replace, defs[n].head.name);
    } else {
      ImportEach(c, defs[..n], replace, i);
    }
  }

  /**
   What the dry run promises. After an import with replacement, diffing the same document reports
   no change for any entity; without replacement it adds nothing, changes nothing and would remove
   exactly what the diff had reported beforehand.
   */
  lemma DiffAfterImport(c: Catalog, defs: seq<Definition>, replace: bool, i: nat)
    requires DistinctDefinitions(defs) && i < |defs|
    ensures var before, after := Diff(c, defs[i]), Diff(ImportAll(c, defs, replace), defs[i]);
      && after.added == {} && after.changed == {}
      && after.removed == (if replace then {} else before.removed)
      && (after.action == NoChange <==> after.removed == {})
      && (replace ==> after.action == NoChange)
  {
    hide ImportAll;
    ImportEach(c, defs, replace, i);
  }

  /** The exported form of a stored entity, its attributes listed in some order. */
  ghost predicate Lists(r: EntityRec, d: Definition) {
    d.head == r.head && ByName(d.attributes) == r.attributes && NoRepeats(d.attributes)
  }

  lemma {:induction false} ByNameRenumbered(attrs: seq<AttrDef>, shift: seq<AttrDef>)
    requires |shift| == |attrs| && forall i :: 0 <= i < |attrs| ==> shift[i] == attrs[i].(position := shift[i].position)
    ensures ByName(shift).Keys == ByName(attrs).Keys
    ensures forall n :: n in ByName(attrs) ==> SameShape(ByName(shift)[n], ByName(attrs)[n])
  {
    if attrs != [] {
      ByNameRenumbered(attrs[..|attrs| - 1], shift[..|shift| - 1]);
    }
  }

  /** Exporting stored entities and importing the document again changes nothing, as the dry run says. */
  lemma ExportImportNoChange(c: Catalog, defs: seq<Definition>, exportedAt: string, i: nat)
    requires SoundDefinitions(defs) && i < |defs|
    requires defs[i].head.name in c.entities && Lists(c.entities[defs[i].head.name], defs[i])
    ensures var read := ValidatedDocument(ExportDocument(defs, exportedAt)).0;
      |read| == |defs| && Diff(c, read[i]).action == NoChange
  {
    hide ExportDocument, ValidatedDocument, SoundDefinition, ByName;
    DocumentRoundTrip(defs, exportedAt);
    ByNameRenumbered(defs[i].attributes, Renumbered(defs[i].attributes));
  }

  // ---------------------------------------------------------------- create and update

  /** The attributes of a request in dict order: a repeated name keeps its place and takes the last value. */
  function Ordered(attrs: seq<AttrDef>): seq<AttrDef> {
    if attrs == [] then []
    else Placed(Ordered(attrs[..|attrs| - 1]), attrs[|attrs| - 1])
  }

  function Placed(so: seq<AttrDef>, a: AttrDef): seq<AttrDef> {
    if so == [] then [a]
    else if so[0].name == a.name then [a] + so[1..]
    else [so[0]] + Placed(so[1..], a)
  }

  /** Position 0 means "where it stands". */
  function Positioned(a: AttrDef, index: nat): AttrDef {
    if a.position != 0 then a else a.(position := index)
  }

  function Titled(a: AttrDef): AttrDef {
    a.(displayName := DisplayName(a.displayName, a.name))
  }

  /** New attributes get a display name when they have none; existing ones are overwritten as they come. */
  function Merged(current: map<string, AttrDef>, attrs: seq<AttrDef>, n: nat): map<string, AttrDef>
    requires n <= |attrs|
  {
    if n == 0 then map[]
    else
      var a := Positioned(attrs[n - 1], n - 1);
      Merged(current, attrs, n - 1)[a.name := if a.name in current then a else Titled(a)]
  }

  predicate NamesAccepted(attrs: seq<AttrDef>) {
    forall i :: 0 <= i < |attrs| ==> ValidColumn(attrs[i].name).Some?
  }

  /** Check constraints of the metadata tables: snake case names and a display name on every attribute. */
  predicate Storable(name: string, attributes: map<string, AttrDef>) {
    SnakeCase(name) && forall n :: n in attributes ==> SnakeCase(n) && attributes[n].displayName != JNull
  }

  predicate NoRepeats(attrs: seq<AttrDef>) {
    forall i, j :: 0 <= i < j < |attrs| ==> attrs[i].name != attrs[j].name
  }

  /** The entity a create request makes, None when the request fails. */
  function Created(c: Catalog, head: Head, attrs: seq<AttrDef>): Option<EntityRec> {
    var name := ValidIdent(head.name);
    if name.None? || !NamesAccepted(attrs) || name.value in c.entities || attrs == [] then None
    else
      var attributes := Merged(map[], attrs, |attrs|);
      if !NoRepeats(attrs) || !Storable(name.value, attributes) then None
      else Some(EntityRec(head.(name := name.value, displayName := DisplayName(head.displayName, name.value)),
                          attributes, Draft, 1, None))
  }

  /** The entity an update request leaves; the automatic approval threshold is not part of the request. */
  function Updated(r: EntityRec, head: Head, attrs: seq<AttrDef>): Option<EntityRec> {
    if !NamesAccepted(attrs) then None
    else
      var incoming := Ordered(attrs);
      var attributes := Merged(r.attributes, incoming, |incoming|);
      if !Storable(r.head.name, attributes) then None
      else
        Some(EntityRec(
          head.(name := r.head.name,
                displayName := if Truth(head.displayName) then head.displayName else r.head.displayName,
                autoApproveThreshold := r.head.autoApproveThreshold),
          attributes, Touched(r.status), r.version + 1, r.publishedVersion))
  }

  // ---------------------------------------------------------------- publish and delete

  predicate IsSnapshot(s: Snapshot, name: string, version: nat) {
    s.entity == name && s.version == version
  }

  predicate HasSnapshot(snapshots: seq<Snapshot>, name: string, version: nat) {
    exists i :: 0 <= i < |snapshots| && IsSnapshot(snapshots[i], name, version)
  }

  function MarkDeployed(snapshots: seq<Snapshot>, name: string, version: nat): seq<Snapshot> {
    seq(|snapshots|, i requires 0 <= i < |snapshots| =>
      if IsSnapshot(snapshots[i], name, version) then snapshots[i].(deployed := true) else snapshots[i])
  }

  /** Publishing once the DDL has been executed; it records the DDL on the version's snapshot, or inserts one. */
  function PublishedCatalog(c: Catalog, name: string): Catalog
    requires name in c.entities
  {
    var r := c.entities[name].(status := Published, publishedVersion := Some(c.entities[name].version));
    Catalog(c.entities[name := r],
            if HasSnapshot(c.snapshots, name, r.version) then MarkDeployed(c.snapshots, name, r.version)
            else c.snapshots + [SnapshotOf(r).(deployed := true)])
  }

  function WithoutEntity(snapshots: seq<Snapshot>, name: string): seq<Snapshot> {
    if snapshots == [] then []
    else
      var n := |snapshots| - 1;
      WithoutEntity(snapshots[..n], name) + if snapshots[n].entity == name then [] else [snapshots[n]]
  }

  // ---------------------------------------------------------------- runs

  /**
   How far a publish gets: its plan is built, and confirmed if destructive; it is no dry run; its
   statements execute.
   */
  datatype PublishAttempt = PublishAttempt(planned: bool, dryRun: bool, destructive: bool, confirmed: bool,
                                           executed: bool)

  predicate GoesThrough(p: PublishAttempt) {
    p.planned && !p.dryRun && (p.destructive ==> p.confirmed) && p.executed
  }

  datatype Request =
    | Create(head: Head, attrs: seq<AttrDef>)
    | Update(name: string, change: Head, changes: seq<AttrDef>)
    | Import(defs: seq<Definition>, replace: bool)
    | Publish(target: string, attempt: PublishAttempt)
    | Delete(dropped: string)

  predicate ImportStorable(defs: seq<Definition>) {
    forall i :: 0 <= i < |defs| ==>
        Storable(defs[i].head.name, ByName(defs[i].attributes)) && NoRepeats(defs[i].attributes)
  }

  function Handle(c: Catalog, q: Request): Catalog {
    match q
    case Create(head, attrs) =>
      var r := Created(c, head, attrs);
      if r.None? then c else Store(c, r.value)
    case Update(name, head, attrs) =>
      if name !in c.entities then c
      else
        var r := Updated(c.entities[name], head, attrs);
        if r.None? then c else Store(c, r.value)
    case Import(defs, replace) => if ImportStorable(defs) then ImportAll(c, defs, replace) else c
    case Publish(name, attempt) => if name in c.entities && GoesThrough(attempt) then PublishedCatalog(c, name) else c
    case Delete(name) => Catalog(c.entities - {name}, WithoutEntity(c.snapshots, name))
  }

  const NO_ENTITIES := Catalog(map[], [])

  function Served(requests: seq<Request>): Catalog {
    if requests == [] then NO_ENTITIES else Handle(Served(requests[..|requests| - 1]), requests[|requests| - 1])
  }

  // ---------------------------------------------------------------- the version ledger

  /** No entity has two snapshots of one version. */
  ghost predicate NoDuplicates(snapshots: seq<Snapshot>) {
    forall i, j :: 0 <= i < j < |snapshots| ==> !IsSnapshot(snapshots[i], snapshots[j].entity, snapshots[j].version)
  }

  /** Snapshot versions run from 1 to the entity's version, and every snapshot belongs to an entity. */
  ghost predicate VersionsExact(c: Catalog) {
    && (forall i :: 0 <= i < |c.snapshots| ==>
          && c.snapshots[i].entity in c.entities
          && 1 <= c.snapshots[i].version <= c.entities[c.snapshots[i].entity].version)
    && (forall name, v: nat :: name in c.entities && 1 <= v <= c.entities[name].version ==>
        HasSnapshot(c.snapshots, name, v))
  }

  predicate StatusHonest(r: EntityRec) {
    match r.status
    case Draft => r.publishedVersion.None?
    case Published => r.publishedVersion == Some(r.version)
    case Modified => r.publishedVersion.Some? && r.publishedVersion.value < r.version
    case Deprecated => false
  }

  ghost predicate Honest(c: Catalog) {
    forall name :: name in c.entities ==>
        c.entities[name].head.name == name && c.entities[name].version >= 1 && StatusHonest(c.entities[name])
  }

  /** The newest snapshot is the current definition. */
  ghost predicate Current(c: Catalog) {
    forall i :: 0 <= i < |c.snapshots| && c.snapshots[i].entity in c.entities ==>
      Describes(c.snapshots[i], c.entities[c.snapshots[i].entity])
  }

  /** A snapshot of the entity's current version has its content. */
  predicate Describes(s: Snapshot, r: EntityRec) {
    s.version == r.version ==> s.head == r.head && s.attributes == r.attributes
  }

  ghost predicate Ledger(c: Catalog) {
    NoDuplicates(c.snapshots) && VersionsExact(c) && Honest(c) && Current(c)
  }

  /** A record that is new at version 1, or its predecessor's next version. */
  predicate NextVersion(c: Catalog, r: EntityRec) {
    if r.head.name in c.entities then
      var before := c.entities[r.head.name];
      && r.version == before.version + 1 && r.status == Touched(before.status)
      && r.publishedVersion == before.publishedVersion
    else r.version == 1 && r.status == Draft && r.publishedVersion.None?
  }

  lemma StoreSnapshots(c: Catalog, r: EntityRec)
    requires Ledger(c) && NextVersion(c, r)
    ensures NoDuplicates(Store(c, r).snapshots) && VersionsExact(Store(c, r))
  {
    var c' := Store(c, r);
    forall name, v: nat | name in c'.entities && 1 <= v <= c'.entities[name].version
      ensures HasSnapshot(c'.snapshots, name, v)
    {
      if name == r.head.name && v == r.version {
        assert IsSnapshot(c'.snapshots[|c.snapshots|], name, v);
      } else {
        assert HasSnapshot(c.snapshots, name, v);
        var i :| 0 <= i < |c.snapshots| && IsSnapshot(c.snapshots[i], name, v);
        assert IsSnapshot(c'.snapshots[i], name, v);
      }
    }
  }

  lemma StoreLedger(c: Catalog, r: EntityRec)
    requires Ledger(c) && NextVersion(c, r)
    ensures Ledger(Store(c, r))
  {
    StoreSnapshots(c, r);
  }

  lemma {:induction false} ImportLedger(c: Catalog, defs: seq<Definition>, replace: bool)
    requires Ledger(c)
    ensures Ledger(ImportAll(c, defs, replace))
  {
    hide Ledger, Store;
    if defs != [] {
      ImportLedger(c, defs[..|defs| - 1], replace);
      var before := ImportAll(c, defs[..|defs| - 1], replace);
      StoreLedger(before, Imported(before, defs[|defs| - 1], replace));
    }
  }

  /** Publishing never has to insert a snapshot: the version being published already has one. */
  lemma PublishFindsSnapshot(c: Catalog, name: string)
    requires Ledger(c) && name in c.entities
    ensures HasSnapshot(c.snapshots, name, c.entities[name].version)
    ensures |PublishedCatalog(c, name).snapshots| == |c.snapshots|
  {
  }

  lemma PublishLedger(c: Catalog, name: string)
    requires Ledger(c) && name in c.entities
    ensures Ledger(PublishedCatalog(c, name))
  {
    PublishFindsSnapshot(c, name);
    var c' := PublishedCatalog(c, name);
    assert forall i :: 0 <= i < |c.snapshots| ==>
        c'.snapshots[i] == c.snapshots[i].(deployed := c'.snapshots[i].deployed);
    forall n, v: nat | n in c'.entities && 1 <= v <= c'.entities[n].version
      ensures HasSnapshot(c'.snapshots, n, v)
    {
      assert HasSnapshot(c.snapshots, n, v);
      var i :| 0 <= i < |c.snapshots| && IsSnapshot(c.snapshots[i], n, v);
      assert IsSnapshot(c'.snapshots[i], n, v);
    }
  }

  lemma {:induction false} WithoutEntityKeeps(snapshots: seq<Snapshot>, name: string)
    requires NoDuplicates(snapshots)
    ensures NoDuplicates(WithoutEntity(snapshots, name))
    ensures forall s :: s in WithoutEntity(snapshots, name) <==> s in snapshots && s.entity != name
  {
    if snapshots != [] {
      var n := |snapshots| - 1;
      WithoutEntityKeeps(snapshots[..n], name);
      var before := WithoutEntity(snapshots[..n], name);
      assert snapshots == snapshots[..n] + [snapshots[n]];
      forall i | 0 <= i < |before| ensures !IsSnapshot(before[i], snapshots[n].entity, snapshots[n].version) {
        assert before[i] in snapshots[..n];
      }
    }
  }

  lemma SnapshotKept(snapshots: seq<Snapshot>, dropped: string, name: string, v: nat)
    requires NoDuplicates(snapshots) && HasSnapshot(snapshots, name, v) && name != dropped
    ensures HasSnapshot(WithoutEntity(snapshots, dropped), name, v)
  {
    WithoutEntityKeeps(snapshots, dropped);
    var i :| 0 <= i < |snapshots| && IsSnapshot(snapshots[i], name, v);
    var kept := WithoutEntity(snapshots, dropped);
    assert snapshots[i] in kept;
    var j :| 0 <= j < |kept| && kept[j] == snapshots[i];
    assert IsSnapshot(kept[j], name, v);
  }

  lemma DeleteLedger(c: Catalog, name: string)
    requires Ledger(c)
    ensures Ledger(Handle(c, Delete(name)))
  {
    WithoutEntityKeeps(c.snapshots, name);
    var c' := Handle(c, Delete(name));
    forall i | 0 <= i < |c'.snapshots| ensures c'.snapshots[i] in c.snapshots && c'.snapshots[i].entity != name {
      assert c'.snapshots[i] in c'.snapshots;
    }
    forall n, v: nat | n in c'.entities && 1 <= v <= c'.entities[n].version
      ensures HasSnapshot(c'.snapshots, n, v)
    {
      SnapshotKept(c.snapshots, name, n, v);
    }
  }

  lemma HandleLedger(c: Catalog, q: Request)
    requires Ledger(c)
    ensures Ledger(Handle(c, q))
  {
    hide VersionsExact, NoDuplicates, Current, Store, Merged, Storable, PublishedCatalog, WithoutEntity;
    match q {
      case Create(head, attrs) =>
        var r := Created(c, head, attrs);
        if r.Some? {
          StoreLedger(c, r.value);
        }
      case Update(name, head, attrs) =>
        if name in c.entities && Updated(c.entities[name], head, attrs).Some? {
          StoreLedger(c, Updated(c.entities[name], head, attrs).value);
        }
      case Import(defs, replace) => ImportLedger(c, defs, replace);
      case Publish(name, _) =>
        if name in c.entities {
          PublishLedger(c, name);
        }
      case Delete(name) => DeleteLedger(c, name);
    }
  }

  /**
   The version ledger, over any run of create, update, import, publish and delete: an entity's
   snapshots carry exactly the versions 1..version, each once; the newest is its current definition;
   a draft was never published, a published entity is published at its version, and a modified one
   at an earlier version.
   */
  lemma {:induction false} LedgerKept(requests: seq<Request>)
    ensures Ledger(Served(requests))
  {
    if requests != [] {
      LedgerKept(requests[..|requests| - 1]);
      HandleLedger(Served(requests[..|requests| - 1]), requests[|requests| - 1]);
    }
  }
}
