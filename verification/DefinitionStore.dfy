/**
 The metadata tables as mutable state, with the import, create, update and publish operations of
 app/services/model_io.py and app/api/v1/models_api.py on them.
 */
module DefinitionStore {
  import opened Common
  import opened Identifiers
  import opened Documents
  import opened Definitions

  method OrderAttributes(attrs: seq<AttrDef>) returns (ordered: seq<AttrDef>)
    ensures ordered == Ordered(attrs)
  {
    ordered := [];
    for i := 0 to |attrs|
      invariant ordered == Ordered(attrs[..i])
    {
      assert attrs[..i + 1][..i] == attrs[..i];
      ordered := Placed(ordered, attrs[i]);
    }
    assert attrs[..|attrs|] == attrs;
  }

  method MergeAttributes(current: map<string, AttrDef>, attrs: seq<AttrDef>) returns (merged: map<string, AttrDef>)
    ensures merged == Merged(current, attrs, |attrs|)
  {
    merged := map[];
    for idx := 0 to |attrs|
      invariant merged == Merged(current, attrs, idx)
    {
      var a := attrs[idx];
      if a.position == 0 {
        a := a.(position := idx);
      }
      if a.name !in current {
        a := a.(displayName := DisplayName(a.displayName, a.name));
      }
      merged := merged[a.name := a];
    }
  }

  method IndexByName(attrs: seq<AttrDef>) returns (index: map<string, AttrDef>)
    ensures index == ByName(attrs)
  {
    index := map[];
    for i := 0 to |attrs|
      invariant index == ByName(attrs[..i])
    {
      assert attrs[..i + 1][..i] == attrs[..i];
      index := index[attrs[i].name := attrs[i]];
    }
    assert attrs[..|attrs|] == attrs;
  }

  /** The loop over the names on both sides; any of the compared fields may differ. */
  method ChangedNames(current: map<string, AttrDef>, incoming: map<string, AttrDef>) returns (changed: set<string>)
    ensures changed == set n | n in current && n in incoming && !SameShape(current[n], incoming[n])
  {
    changed := {};
    var left := current.Keys * incoming.Keys;
    while left != {}
      invariant left <= current.Keys * incoming.Keys
      invariant changed == set n | n in current && n in incoming && n !in left && !SameShape(current[n], incoming[n])
    {
      var name :| name in left;
      var was, now := current[name], incoming[name];
      if was.dataType != now.dataType || was.length != now.length || was.required != now.required
         || was.unique != now.unique || was.precision != now.precision || was.scale != now.scale {
        changed := changed + {name};
      }
      left := left - {name};
    }
  }

  class Store {
    var entities: map<string, EntityRec>
    var snapshots: seq<Snapshot>

    function Contents(): Catalog
      reads this
    {
      Catalog(entities, snapshots)
    }

    constructor ()
      ensures Contents() == NO_ENTITIES
    {
      entities, snapshots := map[], [];
    }

    method Save(r: EntityRec)
      modifies this
      ensures Contents() == Definitions.Store(old(Contents()), r)
    {
      entities := entities[r.head.name := r];
      snapshots := snapshots + [Snapshot(r.head.name, r.version, r.head, r.attributes, false)];
    }

    method CreateEntity(head: Head, attrs: seq<AttrDef>) returns (created: bool)
      modifies this
      ensures created <==> Created(old(Contents()), head, attrs).Some?
      ensures Contents() == Handle(old(Contents()), Create(head, attrs))
    {
      hide ValidIdent, NamesAccepted, Storable, DisplayName, NoRepeats;
      var name := ValidIdent(head.name);
      if name.None? || !NamesAccepted(attrs) || name.value in entities || attrs == [] {
        return false;
      }
      var attributes := MergeAttributes(map[], attrs);
      if !NoRepeats(attrs) || !Storable(name.value, attributes) {
        return false;
      }
      Save(EntityRec(head.(name := name.value, displayName := DisplayName(head.displayName, name.value)),
                     attributes, Draft, 1, None));
      return true;
    }

    method UpdateEntity(name: string, head: Head, attrs: seq<AttrDef>) returns (updated: bool)
      modifies this
      ensures updated <==> name in old(entities) && Updated(old(entities)[name], head, attrs).Some?
      ensures Contents() == Handle(old(Contents()), Update(name, head, attrs))
    {
      hide NamesAccepted, Storable, Ordered, Merged;
      if name !in entities || !NamesAccepted(attrs) {
        return false;
      }
      var r := entities[name];
      var incoming := OrderAttributes(attrs);
      var attributes := MergeAttributes(r.attributes, incoming);
      if !Storable(r.head.name, attributes) {
        return false;
      }
      var displayName := if Truth(head.displayName) then head.displayName else r.head.displayName;
      var status := r.status;
      if status == Published {
        status := Modified;
      }
      Save(EntityRec(head.(name := r.head.name, displayName := displayName,
                           autoApproveThreshold := r.head.autoApproveThreshold),
                     attributes, status, r.version + 1, r.publishedVersion));
      return true;
    }

    /** What importing one definition would change: names on one side only, and names whose compared fields differ. */
    method DiffOne(d: Definition) returns (report: Report)
      ensures report == Diff(Contents(), d)
    {
      var incoming := IndexByName(d.attributes);
      if d.head.name !in entities {
        return Report(d.head.name, ToCreate, incoming.Keys, {}, {}, false);
      }
      var current := entities[d.head.name].attributes;
      var added, removed := incoming.Keys - current.Keys, current.Keys - incoming.Keys;
      var changed := ChangedNames(current, incoming);
      var action := if added != {} || removed != {} || changed != {} then ToUpdate else NoChange;
      return Report(d.head.name, action, added, removed, changed, Definitions.Deployed(entities[d.head.name].status));
    }

    /** What an import would change, without changing anything. */
    method DiffAgainstExisting(defs: seq<Definition>) returns (report: seq<Report>)
      ensures |report| == |defs| && forall i :: 0 <= i < |defs| ==> report[i] == Diff(Contents(), defs[i])
    {
      hide Diff;
      report := [];
      for i := 0 to |defs|
        invariant |report| == i && forall j :: 0 <= j < i ==> report[j] == Diff(Contents(), defs[j])
      {
        var one := DiffOne(defs[i]);
        report := report + [one];
      }
    }

    /** All definitions in one transaction: created as drafts, or merged into the stored entity as its next version. */
    method ApplyImport(defs: seq<Definition>, replace: bool) returns (applied: bool)
      modifies this
      ensures applied <==> ImportStorable(defs)
      ensures Contents() == Handle(old(Contents()), Import(defs, replace))
    {
      hide ImportStorable, ByName, Definitions.Store;
      if !ImportStorable(defs) {
        return false;
      }
      for i := 0 to |defs|
        invariant Contents() == ImportAll(old(Contents()), defs[..i], replace)
      {
        assert defs[..i + 1][..i] == defs[..i];
        var d, incoming := defs[i], ByName(defs[i].attributes);
        if d.head.name in entities {
          var r := entities[d.head.name];
          var attributes := r.attributes + incoming;
          if replace {
            attributes := incoming;
            assert incoming == if replace then incoming else r.attributes + incoming;
          }
          var status := r.status;
          if status == Published {
            status := Modified;
          }
          Save(EntityRec(d.head, attributes, status, r.version + 1, r.publishedVersion));
        } else {
          Save(EntityRec(d.head, incoming, Draft, 1, None));
        }
      }
      assert defs[..|defs|] == defs;
      return true;
    }

    method PublishEntity(name: string, attempt: PublishAttempt) returns (published: bool)
      modifies this
      ensures published <==> name in old(entities) && GoesThrough(attempt)
      ensures Contents() == Handle(old(Contents()), Publish(name, attempt))
    {
      hide HasSnapshot;
      if name !in entities || !attempt.planned || attempt.dryRun {
        return false;
      }
      if attempt.destructive && !attempt.confirmed {
        return false;
      }
      if !attempt.executed {
        return false;
      }
      var r := entities[name].(status := Published, publishedVersion := Some(entities[name].version));
      entities := entities[name := r];
      if HasSnapshot(snapshots, name, r.version) {
        snapshots := MarkDeployed(snapshots, name, r.version);
      } else {
        snapshots := snapshots + [Snapshot(r.head.name, r.version, r.head, r.attributes, true)];
      }
      return true;
    }
  }
}
