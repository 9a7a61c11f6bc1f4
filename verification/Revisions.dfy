/**
 What each definition request leaves (app/api/v1/models_api.py `create_entity`, `update_entity`,
 `publish_entity`; app/services/model_io.py `apply_import`, `diff_against_existing`), told field by
 field: which attributes there are, what each says, and what stays as it was.
 */
module Revisions {
  import opened Common
  import opened Strings
  import opened Identifiers
  import opened Documents
  import opened Definitions

  // ---------------------------------------------------------------- what a list of attributes asks for

  /** The list gives an attribute of that name. */
  predicate Gives(attrs: seq<AttrDef>, name: string) {
    exists k :: 0 <= k < |attrs| && attrs[k].name == name
  }

  /** No later attribute of the list has the name of the k-th. */
  predicate IsLast(attrs: seq<AttrDef>, k: nat)
    ensures IsLast(attrs, k) ==> k < |attrs|
  {
    k < |attrs| && forall j :: k < j < |attrs| ==> attrs[j].name != attrs[k].name
  }

  /** Indexing by name keeps the last attribute given under each name. */
  lemma {:induction false} ByNameMeans(attrs: seq<AttrDef>)
    ensures forall n :: n in ByName(attrs) <==> Gives(attrs, n)
    ensures forall k: nat :: IsLast(attrs, k) ==>
        attrs[k].name in ByName(attrs) && ByName(attrs)[attrs[k].name] == attrs[k]
  {
    if attrs != [] {
      var m := |attrs| - 1;
      var before, a := attrs[..m], attrs[m];
      ByNameMeans(before);
      GivesLast(attrs);
      var kept := ByName(before);
      assert ByName(attrs) == kept[a.name := a];
      hide ByName, Gives;
      forall k: nat | IsLast(attrs, k)
        ensures attrs[k].name in ByName(attrs) && ByName(attrs)[attrs[k].name] == attrs[k]
      {
        if k < m {
          assert IsLast(before, k) && before[k] == attrs[k];
          assert attrs[m].name != attrs[k].name;
        }
      }
    }
  }

  lemma GivesLast(attrs: seq<AttrDef>)
    requires attrs != []
    ensures forall n :: Gives(attrs, n) <==> Gives(attrs[..|attrs| - 1], n) || attrs[|attrs| - 1].name == n
  {
    var m := |attrs| - 1;
    forall n ensures Gives(attrs, n) <==> Gives(attrs[..m], n) || attrs[m].name == n {
      if k :| 0 <= k < m && attrs[k].name == n {
        assert attrs[..m][k].name == n;
      }
      if k :| 0 <= k < m && attrs[..m][k].name == n {
        assert attrs[k].name == n;
      }
    }
  }

  lemma {:induction false} PlacedMeans(so: seq<AttrDef>, a: AttrDef)
    requires NoRepeats(so)
    ensures NoRepeats(Placed(so, a))
    ensures forall x :: x in Placed(so, a) <==> x == a || (x in so && x.name != a.name)
  {
    if so != [] {
      var rest := so[1..];
      assert so == [so[0]] + rest;
      assert forall x :: x in rest ==> x.name != so[0].name;
      PlacedMeans(rest, a);
      if so[0].name == a.name {
        assert Placed(so, a) == [a] + rest;
      } else {
        assert Placed(so, a) == [so[0]] + Placed(rest, a);
      }
    }
  }

  /** Dict order keeps one attribute for each name given, the last. */
  lemma {:induction false} OrderedMeans(attrs: seq<AttrDef>)
    ensures NoRepeats(Ordered(attrs))
    ensures forall x :: x in Ordered(attrs) <==> exists k: nat :: IsLast(attrs, k) && attrs[k] == x
  {
    if attrs != [] {
      hide Placed;
      var m := |attrs| - 1;
      var before, a := attrs[..m], attrs[m];
      OrderedMeans(before);
      PlacedMeans(Ordered(before), a);
      forall x ensures (exists k: nat :: IsLast(attrs, k) && attrs[k] == x)
          <==> x == a || ((exists k: nat :: IsLast(before, k) && before[k] == x) && x.name != a.name) {
        LastOf(attrs, x);
      }
    }
  }

  lemma LastOf(attrs: seq<AttrDef>, x: AttrDef)
    requires attrs != []
    ensures var before, a := attrs[..|attrs| - 1], attrs[|attrs| - 1];
      (exists k: nat :: IsLast(attrs, k) && attrs[k] == x)
      <==> x == a || ((exists k: nat :: IsLast(before, k) && before[k] == x) && x.name != a.name)
  {
    var m := |attrs| - 1;
    var before, a := attrs[..m], attrs[m];
    assert IsLast(attrs, m);
    forall k: nat | k < m ensures IsLast(attrs, k) <==> IsLast(before, k) && attrs[k].name != a.name {
      Shortened(attrs, k);
    }
    hide IsLast;
    if x != a && exists k: nat :: IsLast(attrs, k) && attrs[k] == x {
      var k: nat :| IsLast(attrs, k) && attrs[k] == x;
      assert k < m && before[k] == x;
    }
    if k: nat :| IsLast(before, k) && before[k] == x && x.name != a.name {
      assert attrs[k] == x;
    }
  }

  lemma Shortened(attrs: seq<AttrDef>, k: nat)
    requires k < |attrs| - 1
    ensures IsLast(attrs, k) <==> IsLast(attrs[..|attrs| - 1], k) && attrs[k].name != attrs[|attrs| - 1].name
  {
  }

  // ---------------------------------------------------------------- attributes as stored

  /** The stored attribute is the one given, but for its place and a made-up display name. */
  predicate StoredAs(stored: AttrDef, given: AttrDef, known: bool) {
    && stored == given.(position := stored.position, displayName := stored.displayName)
    && (given.position != 0 ==> stored.position == given.position)
    && stored.displayName == (if known || Truth(given.displayName) then given.displayName
                              else JText(Title(Spaced(given.name))))
  }

  /** What storing a request makes of its k-th attribute; position 0 stands for the place in the list. */
  predicate MergedAt(merged: map<string, AttrDef>, current: map<string, AttrDef>, attrs: seq<AttrDef>, k: nat)
    requires k < |attrs|
  {
    && attrs[k].name in merged && StoredAs(merged[attrs[k].name], attrs[k], attrs[k].name in current)
    && (attrs[k].position == 0 ==> merged[attrs[k].name].position == k)
  }

  lemma {:induction false} MergedNames(current: map<string, AttrDef>, attrs: seq<AttrDef>, n: nat)
    requires n <= |attrs|
    ensures forall name :: name in Merged(current, attrs, n) <==> Gives(attrs[..n], name)
  {
    if n > 0 {
      hide Gives, Merged, MergedAt;
      MergedNames(current, attrs, n - 1);
      GivesLast(attrs[..n]);
      assert attrs[..n][..n - 1] == attrs[..n - 1];
      MergedLast(current, attrs, n);
    }
  }

  lemma {:induction false} MergedValues(current: map<string, AttrDef>, attrs: seq<AttrDef>, n: nat)
    requires n <= |attrs| && NoRepeats(attrs)
    ensures forall k :: 0 <= k < n ==> MergedAt(Merged(current, attrs, n), current, attrs, k)
  {
    if n > 0 {
      hide Merged, StoredAs;
      var before, after := Merged(current, attrs, n - 1), Merged(current, attrs, n);
      MergedValues(current, attrs, n - 1);
      MergedLast(current, attrs, n);
      forall k | 0 <= k < n ensures MergedAt(after, current, attrs, k) {
        if k < n - 1 {
          assert MergedAt(before, current, attrs, k) && attrs[k].name != attrs[n - 1].name;
        }
      }
    }
  }

  lemma MergedLast(current: map<string, AttrDef>, attrs: seq<AttrDef>, n: nat)
    requires 0 < n <= |attrs|
    ensures var before, after, name := Merged(current, attrs, n - 1), Merged(current, attrs, n), attrs[n - 1].name;
      && after.Keys == before.Keys + {name} && (forall other :: other in before && other != name ==>
            after[other] == before[other])
      && MergedAt(after, current, attrs, n - 1)
  {
    var a := attrs[n - 1];
    StoredOne(a, n - 1, a.name in current);
    var stored := if a.name in current then Positioned(a, n - 1) else Titled(Positioned(a, n - 1));
    assert Merged(current, attrs, n) == Merged(current, attrs, n - 1)[a.name := stored];
    hide Merged, StoredAs, Positioned, Titled;
  }

  lemma StoredOne(a: AttrDef, index: nat, known: bool)
    ensures var stored := if known then Positioned(a, index) else Titled(Positioned(a, index));
      StoredAs(stored, a, known) && stored.name == a.name && (a.position == 0 ==> stored.position == index)
  {
    hide Title, Spaced, Truth;
  }

  lemma MergedWhole(current: map<string, AttrDef>, attrs: seq<AttrDef>)
    requires NoRepeats(attrs)
    ensures var merged := Merged(current, attrs, |attrs|);
      && (forall name :: name in merged <==> Gives(attrs, name))
      && forall k :: 0 <= k < |attrs| ==>
           && attrs[k].name in merged && StoredAs(merged[attrs[k].name], attrs[k], attrs[k].name in current)
           && (attrs[k].position == 0 ==> merged[attrs[k].name].position == k)
  {
    hide Gives, Merged, StoredAs;
    MergedNames(current, attrs, |attrs|);
    MergedValues(current, attrs, |attrs|);
    assert attrs[..|attrs|] == attrs;
    var merged := Merged(current, attrs, |attrs|);
    forall k | 0 <= k < |attrs|
      ensures attrs[k].name in merged && StoredAs(merged[attrs[k].name], attrs[k], attrs[k].name in current)
      ensures attrs[k].position == 0 ==> merged[attrs[k].name].position == k
    {
      assert MergedAt(merged, current, attrs, k);
    }
  }

  /** The metadata tables take the attribute: only an attribute already stored can lack a display name. */
  predicate Acceptable(a: AttrDef, known: bool) {
    SnakeCase(a.name) && !(known && a.displayName == JNull)
  }

  lemma AcceptableStored(stored: AttrDef, a: AttrDef, known: bool)
    requires StoredAs(stored, a, known)
    ensures Acceptable(a, known) <==> SnakeCase(a.name) && stored.displayName != JNull
  {
    hide SnakeCase, Title, Spaced;
  }

  lemma Storability(name: string, current: map<string, AttrDef>, attrs: seq<AttrDef>)
    requires NoRepeats(attrs)
    ensures Storable(name, Merged(current, attrs, |attrs|))
       <==> SnakeCase(name) && forall k :: 0 <= k < |attrs| ==> Acceptable(attrs[k], attrs[k].name in current)
  {
    hide Merged, StoredAs, SnakeCase, Acceptable;
    MergedWhole(current, attrs);
    var merged := Merged(current, attrs, |attrs|);
    forall k | 0 <= k < |attrs|
      ensures Acceptable(attrs[k], attrs[k].name in current)
         <==> SnakeCase(attrs[k].name) && merged[attrs[k].name].displayName != JNull
    {
      AcceptableStored(merged[attrs[k].name], attrs[k], attrs[k].name in current);
    }
  }

  // ---------------------------------------------------------------- create

  /** Why a create request fails: a bad name, a name in use, no attributes, or one given twice. */
  lemma CreateRefused(c: Catalog, head: Head, attrs: seq<AttrDef>)
    ensures Created(c, head, attrs).None? <==>
      || ValidIdent(head.name).None? || Recase(Lower, head.name) in c.entities || attrs == []
      || !SnakeCase(Recase(Lower, head.name))
      || (exists k :: 0 <= k < |attrs| && (ValidColumn(attrs[k].name).None? || !SnakeCase(attrs[k].name)))
      || (exists j, k :: 0 <= j < k < |attrs| && attrs[j].name == attrs[k].name)
  {
    hide RESERVED, Merged, SnakeCase, Title, Spaced, Storable;
    if NoRepeats(attrs) {
      Storability(Recase(Lower, head.name), map[], attrs);
    }
  }

  /** A new entity is a draft at version 1 with exactly the attributes given. */
  lemma CreateMeans(c: Catalog, head: Head, attrs: seq<AttrDef>)
    requires Created(c, head, attrs).Some?
    ensures var r := Created(c, head, attrs).value;
      && r.status == Draft && r.version == 1 && r.publishedVersion == None
      && r.head.name == Recase(Lower, head.name) && r.head.name !in c.entities
      && r.head.displayName == (if Truth(head.displayName) then head.displayName else JText(Title(Spaced(r.head.name))))
      && r.head.description == head.description && r.head.domain == head.domain
      && r.head.requiresApproval == head.requiresApproval && r.head.softDelete == head.softDelete
      && r.head.autoApproveThreshold == head.autoApproveThreshold && r.head.retentionDays == head.retentionDays
      && (forall n :: n in r.attributes <==> Gives(attrs, n))
      && (forall k :: 0 <= k < |attrs| ==>
            && attrs[k].name in r.attributes && StoredAs(r.attributes[attrs[k].name], attrs[k], false)
            && (attrs[k].position == 0 ==> r.attributes[attrs[k].name].position == k))
  {
    hide RESERVED, Merged, SnakeCase, Title, Spaced, StoredAs, Storable, Gives;
    MergedWhole(map[], attrs);
  }

  // ---------------------------------------------------------------- update

  /**
   After an update that goes through, the entity's attributes are exactly those of the request: for
   each name given, the last one given under it. Whatever the request leaves out is gone.
   */
  lemma UpdateMeans(r: EntityRec, head: Head, attrs: seq<AttrDef>)
    requires Updated(r, head, attrs).Some?
    ensures var u := Updated(r, head, attrs).value;
      && u.version == r.version + 1 && u.publishedVersion == r.publishedVersion
      && u.status == (if r.status == Published then Modified else r.status)
      && u.head.name == r.head.name && u.head.autoApproveThreshold == r.head.autoApproveThreshold
      && u.head.displayName == (if Truth(head.displayName) then head.displayName else r.head.displayName)
      && u.head.description == head.description && u.head.domain == head.domain
      && u.head.requiresApproval == head.requiresApproval && u.head.softDelete == head.softDelete
      && u.head.retentionDays == head.retentionDays
      && (forall n :: n in u.attributes <==> Gives(attrs, n))
      && (forall k: nat :: IsLast(attrs, k) ==>
            && attrs[k].name in u.attributes
            && StoredAs(u.attributes[attrs[k].name], attrs[k], attrs[k].name in r.attributes))
  {
    hide RESERVED, Merged, Ordered, SnakeCase, StoredAs, Gives, IsLast, Storable;
    var so := Ordered(attrs);
    OrderedMeans(attrs);
    MergedWhole(r.attributes, so);
    forall n ensures Gives(so, n) <==> Gives(attrs, n) {
      OrderedNames(attrs, n);
    }
    forall k: nat | IsLast(attrs, k)
      ensures attrs[k].name in Merged(r.attributes, so, |so|)
      ensures StoredAs(Merged(r.attributes, so, |so|)[attrs[k].name], attrs[k], attrs[k].name in r.attributes)
    {
      assert attrs[k] in so;
    }
  }

  lemma OrderedNames(attrs: seq<AttrDef>, n: string)
    ensures Gives(Ordered(attrs), n) <==> Gives(attrs, n)
  {
    hide Ordered;
    OrderedMeans(attrs);
    var so := Ordered(attrs);
    if k :| 0 <= k < |so| && so[k].name == n {
      assert so[k] in so;
    }
    if k :| 0 <= k < |attrs| && attrs[k].name == n {
      var last := LastUnder(attrs, k);
      assert attrs[last] in so;
    }
  }

  lemma LastUnder(attrs: seq<AttrDef>, k: nat) returns (last: nat)
    requires k < |attrs|
    ensures IsLast(attrs, last) && attrs[last].name == attrs[k].name
    decreases |attrs| - k
  {
    if j :| k < j < |attrs| && attrs[j].name == attrs[k].name {
      last := LastUnder(attrs, j);
    } else {
      last := k;
    }
  }

  /** Why an update fails: a bad column name, or an attribute already stored whose display name is left out. */
  lemma UpdateRefused(r: EntityRec, head: Head, attrs: seq<AttrDef>)
    ensures Updated(r, head, attrs).None? <==>
      || !SnakeCase(r.head.name)
      || (exists k :: 0 <= k < |attrs| && (ValidColumn(attrs[k].name).None? || !SnakeCase(attrs[k].name)))
      || (exists k: nat :: IsLast(attrs, k) && attrs[k].name in r.attributes && attrs[k].displayName == JNull)
  {
    hide Merged, Ordered, SnakeCase, Storable, IsLast, ValidColumn, Acceptable;
    OrderedMeans(attrs);
    Storability(r.head.name, r.attributes, Ordered(attrs));
    OrderedAcceptable(attrs, r.attributes);
  }

  lemma OrderedAcceptable(attrs: seq<AttrDef>, current: map<string, AttrDef>)
    ensures var so := Ordered(attrs);
      (forall k :: 0 <= k < |so| ==> Acceptable(so[k], so[k].name in current))
      <==> (forall k :: 0 <= k < |attrs| ==> SnakeCase(attrs[k].name))
           && !exists k: nat :: IsLast(attrs, k) && attrs[k].name in current && attrs[k].displayName == JNull
  {
    hide Ordered, SnakeCase, IsLast;
    var so := Ordered(attrs);
    OrderedMeans(attrs);
    if forall k :: 0 <= k < |so| ==> Acceptable(so[k], so[k].name in current) {
      forall i: nat | i < |attrs| ensures SnakeCase(attrs[i].name) {
        var k := LastUnder(attrs, i);
        assert attrs[k] in so;
      }
      forall k: nat | IsLast(attrs, k) ensures !(attrs[k].name in current && attrs[k].displayName == JNull) {
        assert attrs[k] in so;
      }
    } else {
      var i :| 0 <= i < |so| && !Acceptable(so[i], so[i].name in current);
      assert so[i] in so;
    }
  }

  // ---------------------------------------------------------------- import

  /**
   Importing a definition stores its head and its attributes as they are. An entity that was there
   keeps its other attributes unless they are to be replaced, and goes up one version.
   */
  lemma ImportMeans(c: Catalog, d: Definition, replace: bool)
    ensures var r := Imported(c, d, replace);
      && r.head == d.head
      && (forall k: nat :: IsLast(d.attributes, k) ==>
            d.attributes[k].name in r.attributes && r.attributes[d.attributes[k].name] == d.attributes[k])
      && (d.head.name !in c.entities ==>
            && r.status == Draft && r.version == 1 && r.publishedVersion == None
            && forall n :: n in r.attributes <==> Gives(d.attributes, n))
      && (d.head.name in c.entities ==>
            var was := c.entities[d.head.name];
            && r.version == was.version + 1 && r.publishedVersion == was.publishedVersion
            && r.status == (if was.status == Published then Modified else was.status)
            && (forall n :: n in r.attributes <==> Gives(d.attributes, n) || (!replace && n in was.attributes))
            && (forall n :: n in r.attributes && !Gives(d.attributes, n) ==> r.attributes[n] == was.attributes[n]))
  {
    ByNameMeans(d.attributes);
    hide ByName, Gives, IsLast;
  }

  /** Why an import fails, as a whole: a name that is not snake case, a missing display name, a repeated attribute. */
  lemma ImportRefused(c: Catalog, defs: seq<Definition>, replace: bool)
    ensures var accepted := forall d :: d in defs ==>
                && SnakeCase(d.head.name)
                && (forall a :: a in d.attributes ==> SnakeCase(a.name) && a.displayName != JNull)
                && forall j, k :: 0 <= j < k < |d.attributes| ==> d.attributes[j].name != d.attributes[k].name;
      Handle(c, Import(defs, replace)) == if accepted then ImportAll(c, defs, replace) else c
  {
    hide SnakeCase, ImportAll;
    forall i | 0 <= i < |defs| && NoRepeats(defs[i].attributes)
      ensures Storable(defs[i].head.name, ByName(defs[i].attributes))
         <==> SnakeCase(defs[i].head.name)
              && forall a :: a in defs[i].attributes ==> SnakeCase(a.name) && a.displayName != JNull
    {
      ImportedStorable(defs[i].head.name, defs[i].attributes);
    }
    hide Storable;
    assert ImportStorable(defs) <==> forall d :: d in defs ==>
        Storable(d.head.name, ByName(d.attributes)) && NoRepeats(d.attributes);
  }

  lemma ImportedStorable(name: string, attrs: seq<AttrDef>)
    requires NoRepeats(attrs)
    ensures Storable(name, ByName(attrs))
       <==> SnakeCase(name) && forall a :: a in attrs ==> SnakeCase(a.name) && a.displayName != JNull
  {
    hide SnakeCase, ByName;
    ByNameMeans(attrs);
    assert forall k: nat :: k < |attrs| ==> IsLast(attrs, k);
  }

  // ---------------------------------------------------------------- diff

  predicate Differs(a: AttrDef, b: AttrDef) {
    || a.dataType != b.dataType || a.length != b.length || a.required != b.required || a.unique != b.unique
    || a.precision != b.precision || a.scale != b.scale
  }

  /** What the dry run reports of an entity that is there: names on one side only, and attributes that differ. */
  lemma DiffMeans(c: Catalog, d: Definition)
    ensures Diff(c, d).entity == d.head.name
    ensures d.head.name !in c.entities ==>
      && Diff(c, d).action == ToCreate && Diff(c, d).removed == {} && Diff(c, d).changed == {} && !Diff(c, d).deployed
      && forall n :: n in Diff(c, d).added <==> Gives(d.attributes, n)
    ensures d.head.name in c.entities ==>
      var r, report := c.entities[d.head.name], Diff(c, d);
      && (forall n :: n in report.added <==> Gives(d.attributes, n) && n !in r.attributes)
      && (forall n :: n in report.removed <==> n in r.attributes && !Gives(d.attributes, n))
      && (forall k: nat :: IsLast(d.attributes, k) && d.attributes[k].name in r.attributes ==>
            (d.attributes[k].name in report.changed <==> Differs(r.attributes[d.attributes[k].name], d.attributes[k])))
      && (forall n :: n in report.changed ==> n in r.attributes && Gives(d.attributes, n))
      && report.action == (if report.added + report.removed + report.changed == {} then NoChange else ToUpdate)
      && (report.deployed <==> r.status == Published || r.status == Modified)
  {
    ByNameMeans(d.attributes);
    hide ByName, Gives, IsLast;
  }

  // ---------------------------------------------------------------- publish and delete

  /** Publishing changes the entity's status and published version, marks that version's snapshot, and nothing else. */
  lemma PublishMeans(c: Catalog, name: string)
    requires Ledger(c) && name in c.entities
    ensures var after := PublishedCatalog(c, name);
      && after.entities.Keys == c.entities.Keys
      && (forall other :: other in c.entities && other != name ==> after.entities[other] == c.entities[other])
      && var was, r := c.entities[name], after.entities[name];
      && r.status == Published && r.publishedVersion == Some(was.version) && r.version == was.version
      && r.head == was.head && r.attributes == was.attributes
      && |after.snapshots| == |c.snapshots|
      && forall i :: 0 <= i < |c.snapshots| ==>
           var s, t := c.snapshots[i], after.snapshots[i];
           && t.entity == s.entity && t.version == s.version && t.head == s.head && t.attributes == s.attributes
           && (t.deployed <==> s.deployed || (s.entity == name && s.version == was.version))
  {
    PublishFindsSnapshot(c, name);
    hide Ledger, HasSnapshot;
  }

  /** Deleting an entity takes its snapshots with it and leaves every other entity alone. */
  lemma DeleteMeans(c: Catalog, name: string)
    requires Ledger(c)
    ensures var after := Handle(c, Delete(name));
      && name !in after.entities
      && (forall other :: other in after.entities <==> other in c.entities && other != name)
      && (forall other :: other in after.entities ==> after.entities[other] == c.entities[other])
      && forall s :: s in after.snapshots <==> s in c.snapshots && s.entity != name
  {
    WithoutEntityKeeps(c.snapshots, name);
  }
}
