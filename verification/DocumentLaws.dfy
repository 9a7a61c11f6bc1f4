/**
 What validating a document finds in it (app/services/model_io.py `validate_document`): which
 entities and attributes are read and what each member of theirs comes to, and exactly which
 complaints are made.
 */
module DocumentLaws {
  import opened Common
  import opened Strings
  import opened Identifiers
  import opened Documents
  import Validation

  // ---------------------------------------------------------------- members

  /** A member counts as set when it is there and not falsy. */
  predicate Set(m: Members, key: Key) {
    key in m && Truth(m[key])
  }

  /** A real number is cut off towards zero, a written whole number reads as itself, and absence as none. */
  lemma NumberMeans(m: Members, key: Key, i: int, r: real)
    ensures key !in m || m[key] == JNull ==> IntOrNone(Get(m, key)) == None
    ensures key in m && m[key] in {JInt(i), JText(Validation.IntText(i))} ==> IntOrNone(Get(m, key)) == Some(i)
    ensures key in m && m[key] == JReal(r) ==>
      var n := IntOrNone(Get(m, key));
      n.Some? && (if r >= 0.0 then 0.0 <= r - n.value as real < 1.0 else -1.0 < r - n.value as real <= 0.0)
  {
    hide Validation.IntText, Validation.ParseWhole;
    WrittenWhole(i);
    var f := (-r).Floor;
    assert f as real <= -r < (f + 1) as real;
  }

  lemma WrittenWhole(i: int)
    ensures Validation.IntText(i) != "" && Validation.ParseWhole(Validation.IntText(i)) == Some(i)
  {
    hide Validation.ParseDigits, Validation.Decimal;
    var s, n: nat := Validation.IntText(i), if i < 0 then -i else i;
    Validation.DecimalDigits(n);
    Validation.ParseDecimal(n);
    assert StripLeft(s) == s && StripRight(s) == s;
    if i < 0 {
      assert s[1..] == Validation.Decimal(n);
    } else {
      assert IsDigit(s[0]);
    }
  }

  /** A name made up from another has a space for each underscore. */
  lemma {:induction false} SpacedMeans(s: string)
    ensures |Spaced(s)| == |s| && forall i :: 0 <= i < |s| ==> Spaced(s)[i] == if s[i] == '_' then ' ' else s[i]
  {
    if s != "" {
      SpacedMeans(s[1..]);
    }
  }

  /** What Python prints for a member that should have been a text. */
  lemma PrintedMeans(s: string, b: bool, i: int)
    ensures TextOf(JText(s)) == s && TextOf(JNull) == "None" && TextOf(JBool(b)) == if b then "True" else "False"
    ensures Validation.ParseWhole(TextOf(JInt(i))) == Some(i)
  {
    hide Validation.IntText, Validation.ParseWhole;
    WrittenWhole(i);
  }

  /** Every flag of an attribute is off unless it is set; members that are missing or of a wrong shape read as empty. */
  lemma AttributeMembers(m: Members, name: string, dataType: string, index: nat)
    ensures var a := ReadAttr(m, name, dataType, index);
      && a.name == name && a.dataType == dataType && a.position == index
      && a.displayName == (if Set(m, KDisplayName) then m[KDisplayName] else JText(Title(Spaced(name))))
      && (a.required <==> Set(m, KIsRequired)) && (a.unique <==> Set(m, KIsUnique))
      && (a.businessKey <==> Set(m, KIsBusinessKey)) && (a.matchKey <==> Set(m, KIsMatchKey))
      && (a.indexed <==> Set(m, KIsIndexed)) && (a.pii <==> Set(m, KIsPii))
      && a.length == IntOrNone(Get(m, KLength)) && a.precision == IntOrNone(Get(m, KNumericPrecision))
      && a.scale == IntOrNone(Get(m, KNumericScale))
      && a.description == Get(m, KDescription) && a.default == Get(m, KDefaultValue)
      && a.refEntity == Get(m, KRefEntity) && a.refAttribute == Get(m, KRefAttribute)
      && (if KValidation in m && m[KValidation].JMap? then JMap(a.validation) == m[KValidation]
          else a.validation == map[])
      && (if KNormalization in m && m[KNormalization].JList? then JList(a.normalization) == m[KNormalization]
          else if KNormalization in m && m[KNormalization].JText? && m[KNormalization].s != ""
          then a.normalization == [m[KNormalization]] else a.normalization == [])
  {
    hide IntOrNone, Title, Spaced;
  }

  /** Approval and soft deletion are on unless they are turned off. */
  lemma HeadMembers(m: Members, name: string)
    ensures var h := ReadHead(m, name);
      && h.name == name && h.description == Get(m, KDescription) && h.domain == Get(m, KDomain)
      && h.displayName == (if Set(m, KDisplayName) then m[KDisplayName] else JText(Title(Spaced(name))))
      && (h.requiresApproval <==> KRequiresApproval !in m || Truth(m[KRequiresApproval]))
      && (h.softDelete <==> KSoftDelete !in m || Truth(m[KSoftDelete]))
      && h.autoApproveThreshold == IntOrNone(Get(m, KAutoApproveThreshold))
      && h.retentionDays == IntOrNone(Get(m, KRetentionDays))
  {
    hide IntOrNone, Title, Spaced;
  }

  // ---------------------------------------------------------------- attributes

  /** The i-th item is a mapping with an accepted name. */
  predicate NamedAt(raws: seq<Json>, i: nat, name: string)
    ensures NamedAt(raws, i, name) ==> i < |raws| && raws[i].JMap?
  {
    i < |raws| && raws[i].JMap? && ValidColumn(TextMember(raws[i].members, KName)) == Some(name)
  }

  predicate FirstNamed(raws: seq<Json>, i: nat, name: string)
    ensures FirstNamed(raws, i, name) ==> i < |raws| && raws[i].JMap?
  {
    NamedAt(raws, i, name) && forall j: nat :: j < i ==> !NamedAt(raws, j, name)
  }

  predicate TypeKnown(m: Members) {
    Recase(Lower, TextMember(m, KDataType)) in TYPES
  }

  /** The i-th item is read: it is the first of its name, and its type is known. */
  predicate ReadAt(raws: seq<Json>, i: nat, name: string)
    ensures ReadAt(raws, i, name) ==> i < |raws| && raws[i].JMap?
  {
    FirstNamed(raws, i, name) && TypeKnown(raws[i].members)
  }

  /** The complaint is true of the i-th item. */
  predicate Complains(entity: string, raws: seq<Json>, i: nat, c: Complaint)
    requires i < |raws|
  {
    match c
    case AttributeNotMapping(e, index) => e == entity && index == i && !raws[i].JMap?
    case BadAttributeName(e, index, given) =>
      && e == entity && index == i && raws[i].JMap? && given == MemberOrBlank(raws[i].members, KName)
      && ValidColumn(TextMember(raws[i].members, KName)).None?
    case DuplicateAttribute(e, name) => e == entity && NamedAt(raws, i, name) && !FirstNamed(raws, i, name)
    case UnsupportedType(e, name, given) =>
      && e == entity && FirstNamed(raws, i, name) && !TypeKnown(raws[i].members)
      && given == MemberOrBlank(raws[i].members, KDataType)
    case BadValidation(e, name) =>
      && e == entity && ReadAt(raws, i, name)
      && Set(raws[i].members, KValidation) && !raws[i].members[KValidation].JMap?
    case BadNormalization(e, name) =>
      && e == entity && ReadAt(raws, i, name) && Set(raws[i].members, KNormalization)
      && !raws[i].members[KNormalization].JText? && !raws[i].members[KNormalization].JList?
    case _ => false
  }

  /** The names seen are those of the items gone through. */
  ghost predicate SeenSoFar(seen: set<string>, raws: seq<Json>, n: nat) {
    forall name :: name in seen <==> exists j: nat :: j < n && NamedAt(raws, j, name)
  }

  lemma FirstUnseen(seen: set<string>, raws: seq<Json>, n: nat, name: string)
    requires SeenSoFar(seen, raws, n) && NamedAt(raws, n, name)
    ensures FirstNamed(raws, n, name) <==> name !in seen
  {
    hide NamedAt;
  }

  /** The item's attribute, if it is read. */
  predicate Yields(raws: seq<Json>, i: nat, a: AttrDef) {
    && ReadAt(raws, i, a.name)
    && a == ReadAttr(raws[i].members, a.name, Recase(Lower, TextMember(raws[i].members, KDataType)), i)
  }

  /** One turn of the loop reads what the item yields, and makes the complaints that are true of it. */
  lemma TurnMeans(so: AttrsRead, entity: string, raws: seq<Json>, n: nat) returns (more: seq<Complaint>)
    requires n < |raws| && SeenSoFar(so.seen, raws, n)
    ensures var after := ReadOne(so, entity, raws[n], n);
      && (forall name :: name in after.seen <==> name in so.seen || NamedAt(raws, n, name))
      && (forall a :: a in after.attrs <==> a in so.attrs || Yields(raws, n, a))
      && after.complaints == so.complaints + more && forall c :: c in more <==> Complains(entity, raws, n, c)
  {
    hide ValidColumn, TYPES, TextMember, MemberOrBlank, Recase, ReadAttr, ShapeComplaints, FirstNamed, SeenSoFar;
    FirstIsNamed(raws, n);
    if !raws[n].JMap? {
      return [AttributeNotMapping(entity, n)];
    }
    var m := raws[n].members;
    var name := ValidColumn(TextMember(m, KName));
    if name.None? {
      return [BadAttributeName(entity, n, MemberOrBlank(m, KName))];
    }
    FirstUnseen(so.seen, raws, n, name.value);
    if name.value in so.seen {
      return [DuplicateAttribute(entity, name.value)];
    }
    var dataType := Recase(Lower, TextMember(m, KDataType));
    if dataType !in TYPES {
      return [UnsupportedType(entity, name.value, MemberOrBlank(m, KDataType))];
    }
    assert ReadAttr(m, name.value, dataType, n).name == name.value by {
      AttributeMembers(m, name.value, dataType, n);
    }
    ShapesMean(m, entity, name.value);
    return ShapeComplaints(m, entity, name.value);
  }

  lemma FirstIsNamed(raws: seq<Json>, i: nat)
    ensures forall name :: FirstNamed(raws, i, name) ==> NamedAt(raws, i, name)
  {
    hide NamedAt;
  }

  lemma ShapesMean(m: Members, entity: string, name: string)
    ensures forall c :: c in ShapeComplaints(m, entity, name) <==>
      || (c == BadValidation(entity, name) && Set(m, KValidation) && !m[KValidation].JMap?)
      || (c == BadNormalization(entity, name) && Set(m, KNormalization)
          && !m[KNormalization].JText? && !m[KNormalization].JList?)
  {
  }

  /** One of the first n items comes to the attribute. */
  ghost predicate YieldedBy(raws: seq<Json>, n: nat, a: AttrDef) {
    exists i: nat :: i < n && Yields(raws, i, a)
  }

  /** The complaint is true of one of the first n items. */
  ghost predicate ComplainedOf(entity: string, raws: seq<Json>, n: nat, c: Complaint)
    requires n <= |raws|
  {
    exists i: nat :: i < n && Complains(entity, raws, i, c)
  }

  lemma OneMoreItem(entity: string, raws: seq<Json>, n: nat)
    requires 0 < n <= |raws|
    ensures forall a :: YieldedBy(raws, n, a) <==> YieldedBy(raws, n - 1, a) || Yields(raws, n - 1, a)
    ensures forall c :: ComplainedOf(entity, raws, n, c)
                   <==> ComplainedOf(entity, raws, n - 1, c) || Complains(entity, raws, n - 1, c)
  {
    hide Yields, Complains;
  }

  lemma {:induction false} AttributesUpTo(entity: string, raws: seq<Json>, n: nat)
    requires n <= |raws|
    ensures var r := ReadAttrs(entity, raws[..n]);
      && SeenSoFar(r.seen, raws, n)
      && (forall a :: a in r.attrs <==> YieldedBy(raws, n, a))
      && (forall c :: c in r.complaints <==> ComplainedOf(entity, raws, n, c))
  {
    if n > 0 {
      hide ReadOne, Yields, Complains, NamedAt, SeenSoFar, YieldedBy, ComplainedOf;
      OneMoreItem(entity, raws, n);
      AttributesUpTo(entity, raws, n - 1);
      assert raws[..n][..n - 1] == raws[..n - 1];
      var before := ReadAttrs(entity, raws[..n - 1]);
      var more := TurnMeans(before, entity, raws, n - 1);
      SeenMore(before.seen, ReadAttrs(entity, raws[..n]).seen, raws, n);
    } else {
      assert SeenSoFar({}, raws, 0);
    }
  }

  lemma SeenMore(before: set<string>, seen: set<string>, raws: seq<Json>, n: nat)
    requires n > 0 && SeenSoFar(before, raws, n - 1)
    requires forall name :: name in seen <==> name in before || NamedAt(raws, n - 1, name)
    ensures SeenSoFar(seen, raws, n)
  {
    hide NamedAt;
  }

  /**
   The attributes read are exactly the items that are first of their name and of a known type, and the
   complaints are exactly those that are true of some item.
   */
  lemma AttributesMean(entity: string, raws: seq<Json>)
    ensures var r := ReadAttrs(entity, raws);
      && (forall a :: a in r.attrs <==> YieldedBy(raws, |raws|, a))
      && (forall c :: c in r.complaints <==> ComplainedOf(entity, raws, |raws|, c))
  {
    hide ReadAttrs, YieldedBy, ComplainedOf;
    assert raws[..|raws|] == raws;
    AttributesUpTo(entity, raws, |raws|);
  }

  // ---------------------------------------------------------------- entities

  /** The i-th entity is a mapping with an accepted name, and the first with that name. */
  predicate FirstEntity(raws: seq<Json>, i: nat, name: string)
    ensures FirstEntity(raws, i, name) ==> i < |raws| && raws[i].JMap?
  {
    EntityAt(raws, i, name) && forall j: nat :: j < i ==> !EntityAt(raws, j, name)
  }

  predicate EntityAt(raws: seq<Json>, i: nat, name: string)
    ensures EntityAt(raws, i, name) ==> i < |raws| && raws[i].JMap?
  {
    i < |raws| && raws[i].JMap? && ValidIdent(TextMember(raws[i].members, KName)) == Some(name)
  }

  predicate Listed(m: Members) {
    KAttributes in m && m[KAttributes].JList? && m[KAttributes].items != []
  }

  /** It has attributes, and one of them at least is read. */
  predicate DefinedAt(raws: seq<Json>, i: nat, name: string)
    ensures DefinedAt(raws, i, name) ==> i < |raws| && raws[i].JMap? && Listed(raws[i].members)
  {
    && FirstEntity(raws, i, name) && Listed(raws[i].members)
    && ReadAttrs(name, raws[i].members[KAttributes].items).attrs != []
  }

  predicate Defines(raws: seq<Json>, i: nat, d: Definition) {
    && DefinedAt(raws, i, d.head.name) && d.head == ReadHead(raws[i].members, d.head.name)
    && d.attributes == ReadAttrs(d.head.name, raws[i].members[KAttributes].items).attrs
  }

  /** The complaint is true of the i-th entity, or of one of its attributes. */
  ghost predicate EntityComplains(raws: seq<Json>, i: nat, c: Complaint)
    requires i < |raws|
  {
    match c
    case EntityNotMapping(index) => index == i && !raws[i].JMap?
    case BadEntityName(index, given) =>
      && index == i && raws[i].JMap? && given == MemberOrBlank(raws[i].members, KName)
      && ValidIdent(TextMember(raws[i].members, KName)).None?
    case DuplicateEntity(name) => EntityAt(raws, i, name) && !FirstEntity(raws, i, name)
    case NoAttributes(name) => FirstEntity(raws, i, name) && !Listed(raws[i].members)
    case NoValidAttributes(name) =>
      FirstEntity(raws, i, name) && Listed(raws[i].members) && !DefinedAt(raws, i, name)
    case NoBusinessKey(name) =>
      && DefinedAt(raws, i, name)
      && forall a :: a in ReadAttrs(name, raws[i].members[KAttributes].items).attrs ==> !a.businessKey
    case IncompatibleVersion(_) => false
    case NoEntities => false
    case _ => InAttributes(raws, i, c)
  }

  ghost predicate InAttributes(raws: seq<Json>, i: nat, c: Complaint) {
    exists name ::
      && FirstEntity(raws, i, name) && Listed(raws[i].members)
      && c in ReadAttrs(name, raws[i].members[KAttributes].items).complaints
  }

  ghost predicate EntitiesSoFar(seen: set<string>, raws: seq<Json>, n: nat) {
    forall name :: name in seen <==> exists j: nat :: j < n && EntityAt(raws, j, name)
  }

  lemma FirstOfEntities(seen: set<string>, raws: seq<Json>, n: nat)
    requires EntitiesSoFar(seen, raws, n)
    ensures forall name :: FirstEntity(raws, n, name) <==> EntityAt(raws, n, name) && name !in seen
  {
    hide EntityAt;
  }

  /** One turn of the entity loop. */
  lemma EntityTurnMeans(so: DocRead, raws: seq<Json>, n: nat) returns (more: seq<Complaint>)
    requires n < |raws| && EntitiesSoFar(so.seen, raws, n)
    ensures var after := ReadEntity(so, raws[n], n);
      && (forall name :: name in after.seen <==> name in so.seen || EntityAt(raws, n, name))
      && (forall d :: d in after.defs <==> d in so.defs || Defines(raws, n, d))
      && after.complaints == so.complaints + more && forall c :: c in more <==> EntityComplains(raws, n, c)
  {
    hide ValidIdent, TextMember, MemberOrBlank, ReadHead, ReadAttrs, FirstEntity, EntitiesSoFar, HasBusinessKey;
    FirstOfEntities(so.seen, raws, n);
    if !raws[n].JMap? {
      return [EntityNotMapping(n)];
    }
    var m := raws[n].members;
    var name := ValidIdent(TextMember(m, KName));
    if name.None? {
      return [BadEntityName(n, MemberOrBlank(m, KName))];
    }
    if name.value in so.seen {
      return [DuplicateEntity(name.value)];
    }
    if !Listed(m) {
      return [NoAttributes(name.value)];
    }
    var r := ReadAttrs(name.value, m[KAttributes].items);
    AttributeComplaintsOnly(name.value, m[KAttributes].items);
    if r.attrs == [] {
      return r.complaints + [NoValidAttributes(name.value)];
    }
    HeadMembers(m, name.value);
    KeyMeans(r.attrs);
    return r.complaints + if HasBusinessKey(r.attrs) then [] else [NoBusinessKey(name.value)];
  }

  lemma KeyMeans(attrs: seq<AttrDef>)
    ensures HasBusinessKey(attrs) <==> exists a :: a in attrs && a.businessKey
  {
  }

  lemma AttributeComplaintsOnly(entity: string, raws: seq<Json>)
    ensures forall c :: c in ReadAttrs(entity, raws).complaints ==>
      c.AttributeNotMapping? || c.BadAttributeName? || c.DuplicateAttribute? || c.UnsupportedType?
      || c.BadValidation? || c.BadNormalization?
  {
    hide ReadAttrs, YieldedBy, NamedAt, FirstNamed, ReadAt;
    AttributesMean(entity, raws);
  }

  /** One of the first n entities comes to the definition. */
  ghost predicate Defined(raws: seq<Json>, n: nat, d: Definition) {
    exists i: nat :: i < n && Defines(raws, i, d)
  }

  /** The complaint is true of one of the first n entities. */
  ghost predicate Complained(raws: seq<Json>, n: nat, c: Complaint)
    requires n <= |raws|
  {
    exists i: nat :: i < n && EntityComplains(raws, i, c)
  }

  lemma OneMore(raws: seq<Json>, n: nat)
    requires 0 < n <= |raws|
    ensures forall d :: Defined(raws, n, d) <==> Defined(raws, n - 1, d) || Defines(raws, n - 1, d)
    ensures forall c :: Complained(raws, n, c) <==> Complained(raws, n - 1, c) || EntityComplains(raws, n - 1, c)
  {
    hide Defines, EntityComplains;
  }

  lemma {:induction false} EntitiesUpTo(raws: seq<Json>, start: seq<Complaint>, n: nat)
    requires n <= |raws|
    ensures var r := ReadEntities(raws[..n], start);
      && EntitiesSoFar(r.seen, raws, n)
      && (forall d :: d in r.defs <==> Defined(raws, n, d))
      && (forall c :: c in r.complaints <==> c in start || Complained(raws, n, c))
  {
    if n > 0 {
      hide ReadEntity, Defines, EntityComplains, EntityAt, EntitiesSoFar, Defined, Complained;
      OneMore(raws, n);
      EntitiesUpTo(raws, start, n - 1);
      assert raws[..n][..n - 1] == raws[..n - 1];
      var before := ReadEntities(raws[..n - 1], start);
      var more := EntityTurnMeans(before, raws, n - 1);
      MoreEntities(before.seen, ReadEntities(raws[..n], start).seen, raws, n);
    } else {
      assert EntitiesSoFar({}, raws, 0);
    }
  }

  lemma MoreEntities(before: set<string>, seen: set<string>, raws: seq<Json>, n: nat)
    requires n > 0 && EntitiesSoFar(before, raws, n - 1)
    requires forall name :: name in seen <==> name in before || EntityAt(raws, n - 1, name)
    ensures EntitiesSoFar(seen, raws, n)
  {
    hide EntityAt;
  }

  // ---------------------------------------------------------------- documents

  /** The entities of a document: its list, or itself when it has none and a name. */
  function EntitiesOf(doc: Members): seq<Json> {
    if KEntities !in doc || doc[KEntities] == JNull then if KName in doc then [JMap(doc)] else []
    else if doc[KEntities].JList? then doc[KEntities].items
    else []
  }

  /** The version given is neither 1 nor 1 followed by a dot. */
  predicate ForeignVersion(doc: Members) {
    && KSchemaVersion in doc
    && var text := TextOf(doc[KSchemaVersion]); text != "1" && !("1." <= text)
  }

  lemma VersionMeans(doc: Members)
    ensures VersionComplaints(doc) == if ForeignVersion(doc) then [IncompatibleVersion(doc[KSchemaVersion])] else []
  {
    assert TextOf(JText("1.0")) == "1.0";
    hide TextOf;
    MajorMeans("1.0");
    if KSchemaVersion in doc {
      MajorMeans(TextOf(doc[KSchemaVersion]));
    }
  }

  lemma MajorMeans(version: string)
    ensures Major(version) == "1" <==> version == "1" || "1." <= version
  {
    if version != "" && version[0] != '.' {
      assert Major(version) == [version[0]] + Major(version[1..]);
      assert Major(version[1..]) == "" <==> version[1..] == "" || version[1] == '.';
      assert version == [version[0]] + version[1..];
    }
  }

  /**
   Validating a document yields exactly the definitions of its entities, and complains exactly of a
   foreign version, of having no entities, and of what is wrong with one of them.
   */
  lemma DocumentMeans(doc: Members)
    ensures var (defs, complaints), raws := ValidatedDocument(doc), EntitiesOf(doc);
      && (forall d :: d in defs <==> Defined(raws, |raws|, d))
      && (forall c :: c in complaints <==>
            || (c == NoEntities && raws == [])
            || (ForeignVersion(doc) && c == IncompatibleVersion(doc[KSchemaVersion]))
            || Complained(raws, |raws|, c))
  {
    hide ReadEntities, Defines, EntityComplains, VersionComplaints, ForeignVersion;
    VersionMeans(doc);
    var raws := EntitiesOf(doc);
    EntitiesUpTo(raws, VersionComplaints(doc), |raws|);
    assert raws[..|raws|] == raws;
  }

  // ---------------------------------------------------------------- blocking

  /** A text is alarming exactly when the word stands somewhere in it, in any letter case. */
  lemma AlarmingMeans(s: string)
    ensures Alarming(s) <==> exists a, word, b :: s == a + word + b && Recase(Lower, word) == "warning"
  {
    var lowered := Recase(Lower, s);
    if i: nat :| i <= |lowered| && OccursAt(lowered, "warning", i) {
      var word := s[i..i + 7];
      assert s == s[..i] + word + s[i + 7..];
      assert Recase(Lower, word) == lowered[i..i + 7];
    }
    if a, word, b :| s == a + word + b && Recase(Lower, word) == "warning" {
      assert lowered[|a|..|a| + 7] == Recase(Lower, word);
      assert OccursAt(lowered, "warning", |a|);
    }
  }

  /** Of a list or mapping, what alarms is an item, or a member's name or value. */
  lemma AlarmsMeans(items: seq<Json>, members: Members)
    ensures Alarms(JList(items)) <==> exists j :: j in items && Alarms(j)
    ensures Alarms(JMap(members)) <==>
      || (exists k :: k in members && Alarms(members[k]))
      || exists name :: KOther(name) in members && Alarming(name)
  {
    hide Alarming;
    if j :| j in items && Alarms(j) {
      var i :| 0 <= i < |items| && items[i] == j;
      assert Alarms(JList(items).items[i]);
    }
  }

  /** A complaint blocks an import unless it is of a missing business key or quotes something alarming. */
  lemma BlockingMeans(e: string, n: string, given: Json, index: nat)
    ensures !Blocking(NoBusinessKey(e)) && Blocking(NoEntities) && Blocking(EntityNotMapping(index))
    ensures Blocking(IncompatibleVersion(given)) <==> !Alarms(given)
    ensures Blocking(BadEntityName(index, given)) <==> !Alarms(given)
    ensures Blocking(DuplicateEntity(e)) <==> !Alarming(e)
    ensures Blocking(NoAttributes(e)) <==> !Alarming(e)
    ensures Blocking(NoValidAttributes(e)) <==> !Alarming(e)
    ensures Blocking(AttributeNotMapping(e, index)) <==> !Alarming(e)
    ensures Blocking(DuplicateAttribute(e, n)) <==> !Alarming(e) && !Alarming(n)
    ensures Blocking(BadValidation(e, n)) <==> !Alarming(e) && !Alarming(n)
    ensures Blocking(BadNormalization(e, n)) <==> !Alarming(e) && !Alarming(n)
    ensures Blocking(BadAttributeName(e, index, given)) <==> !Alarming(e) && !Alarms(given)
    ensures Blocking(UnsupportedType(e, n, given)) <==> !Alarming(e) && !Alarming(n) && !Alarms(given)
  {
    BlockingNone(e, index);
    BlockingEntity(e, given, index);
    BlockingAttribute(e, n, given, index);
    hide Alarming, Alarms, Blocking;
  }

  lemma BlockingEntity(e: string, given: Json, index: nat)
    ensures Blocking(IncompatibleVersion(given)) <==> !Alarms(given)
    ensures Blocking(BadEntityName(index, given)) <==> !Alarms(given)
    ensures Blocking(DuplicateEntity(e)) <==> !Alarming(e)
    ensures Blocking(NoAttributes(e)) <==> !Alarming(e)
    ensures Blocking(NoValidAttributes(e)) <==> !Alarming(e)
    ensures Blocking(AttributeNotMapping(e, index)) <==> !Alarming(e)
  {
    assert Alarms(JText(e)) == Alarming(e);
    hide Alarming, Alarms, Blocking;
    BlockingOne(IncompatibleVersion(given), given);
    BlockingOne(BadEntityName(index, given), given);
    BlockingOne(DuplicateEntity(e), JText(e));
    BlockingOne(NoAttributes(e), JText(e));
    BlockingOne(NoValidAttributes(e), JText(e));
    BlockingOne(AttributeNotMapping(e, index), JText(e));
  }

  lemma BlockingAttribute(e: string, n: string, given: Json, index: nat)
    ensures Blocking(DuplicateAttribute(e, n)) <==> !Alarming(e) && !Alarming(n)
    ensures Blocking(BadValidation(e, n)) <==> !Alarming(e) && !Alarming(n)
    ensures Blocking(BadNormalization(e, n)) <==> !Alarming(e) && !Alarming(n)
    ensures Blocking(BadAttributeName(e, index, given)) <==> !Alarming(e) && !Alarms(given)
    ensures Blocking(UnsupportedType(e, n, given)) <==> !Alarming(e) && !Alarming(n) && !Alarms(given)
  {
    assert Alarms(JText(e)) == Alarming(e) && Alarms(JText(n)) == Alarming(n);
    hide Alarming, Alarms, Blocking;
    BlockingTwo(DuplicateAttribute(e, n), JText(e), JText(n));
    BlockingTwo(BadValidation(e, n), JText(e), JText(n));
    BlockingTwo(BadNormalization(e, n), JText(e), JText(n));
    BlockingTwo(BadAttributeName(e, index, given), JText(e), given);
    BlockingThree(UnsupportedType(e, n, given), JText(e), JText(n), given);
  }

  lemma BlockingNone(e: string, index: nat)
    ensures !Blocking(NoBusinessKey(e)) && Blocking(NoEntities) && Blocking(EntityNotMapping(index))
  {
    hide Alarms;
  }

  lemma BlockingOne(c: Complaint, j: Json)
    requires !c.NoBusinessKey? && Quotes(c) == [j]
    ensures Blocking(c) <==> !Alarms(j)
  {
    hide Alarms;
    assert Quotes(c)[0] == j;
  }

  lemma BlockingTwo(c: Complaint, j: Json, k: Json)
    requires !c.NoBusinessKey? && Quotes(c) == [j, k]
    ensures Blocking(c) <==> !Alarms(j) && !Alarms(k)
  {
    hide Alarms;
    assert Quotes(c)[0] == j && Quotes(c)[1] == k;
  }

  lemma BlockingThree(c: Complaint, j: Json, k: Json, l: Json)
    requires !c.NoBusinessKey? && Quotes(c) == [j, k, l]
    ensures Blocking(c) <==> !Alarms(j) && !Alarms(k) && !Alarms(l)
  {
    hide Alarms;
    assert Quotes(c)[0] == j && Quotes(c)[1] == k && Quotes(c)[2] == l;
  }
}
