/**
 Entity definitions as portable documents (app/services/model_io.py `entity_to_dict`,
 `validate_document`): a parsed document is validated into definitions and a list of complaints.
 */
module Documents {
  import opened Common
  import opened Strings
  import opened Identifiers
  import Validation

  // ---------------------------------------------------------------- documents

  /** A member name of a mapping: one the source looks up, or any other. */
  datatype Key =
    | KName | KDisplayName | KDescription | KDataType | KLength | KNumericPrecision
    | KNumericScale | KIsRequired | KIsUnique | KIsBusinessKey | KIsMatchKey | KIsIndexed
    | KIsPii | KDefaultValue | KValidation | KNormalization | KRefEntity | KRefAttribute
    | KDomain | KRequiresApproval | KSoftDelete | KAutoApproveThreshold | KRetentionDays | KAttributes
    | KSchemaVersion | KExportedAt | KEntities
    | KOther(name: string)

  type Members = map<Key, Json>

  /** A parsed JSON or YAML value. */
  datatype Json =
    | JNull
    | JBool(b: bool)
    | JInt(i: int)
    | JReal(r: real)
    | JText(s: string)
    | JList(items: seq<Json>)
    | JMap(members: map<Key, Json>)

  /** `m.get(key)`. */
  function Get(m: Members, key: Key): Json {
    if key in m then m[key] else JNull
  }

  /** `bool(value)`. */
  predicate Truth(j: Json) {
    match j
    case JNull => false
    case JBool(b) => b
    case JInt(i) => i != 0
    case JReal(r) => r != 0.0
    case JText(s) => s != ""
    case JList(items) => items != []
    case JMap(members) => members != map[]
  }

  function BoolOr(m: Members, key: Key, default: bool): bool {
    if key in m then Truth(m[key]) else default
  }

  /**
   `str(value)`; of a real only the whole part and of a list or mapping only the bracket, no name or
   version starting so.
   */
  function TextOf(j: Json): string {
    match j
    case JNull => "None"
    case JBool(b) => if b then "True" else "False"
    case JText(s) => s
    case JInt(i) => Validation.IntText(i)
    case JReal(_) => Validation.IntText(IntOrNone(j).value) + "."
    case JList(_) => "[]"
    case JMap(_) => "{}"
  }

  /** `m.get(key, "")`. */
  function MemberOrBlank(m: Members, key: Key): Json {
    if key in m then m[key] else JText("")
  }

  function TextMember(m: Members, key: Key): string {
    TextOf(MemberOrBlank(m, key))
  }

  /** `_int_or_none`: unlike a record's integers, a definition's may not have thousands separators. */
  function IntOrNone(j: Json): Option<int> {
    match j
    case JBool(b) => Some(if b then 1 else 0)
    case JInt(i) => Some(i)
    case JReal(r) => Some(if r >= 0.0 then r.Floor else -((-r).Floor))
    case JText(s) => if s == "" then None else Validation.ParseWhole(s)
    case _ => None
  }

  // ---------------------------------------------------------------- definitions

  const TYPES := {
    "string", "text", "integer", "bigint", "decimal", "float", "boolean",
    "date", "timestamp", "uuid", "json", "email", "url", "enum"
  }

  /** An attribute; what the source passes through without looking is kept as it was parsed. */
  datatype AttrDef = AttrDef(
    name: string,
    displayName: Json,
    description: Json,
    dataType: string,
    length: Option<int>,
    precision: Option<int>,
    scale: Option<int>,
    required: bool,
    unique: bool,
    businessKey: bool,
    matchKey: bool,
    indexed: bool,
    pii: bool,
    default: Json,
    validation: Members,
    normalization: seq<Json>,
    refEntity: Json,
    refAttribute: Json,
    position: int)

  datatype Head = Head(
    name: string,
    displayName: Json,
    description: Json,
    domain: Json,
    requiresApproval: bool,
    softDelete: bool,
    autoApproveThreshold: Option<int>,
    retentionDays: Option<int>)

  datatype Definition = Definition(head: Head, attributes: seq<AttrDef>)

  // ---------------------------------------------------------------- export

  function IntJson(i: Option<int>): Json {
    if i.None? then JNull else JInt(i.value)
  }

  function Described(a: AttrDef): Members {
    map[KName := JText(a.name), KDisplayName := a.displayName, KDescription := a.description,
        KDataType := JText(a.dataType), KLength := IntJson(a.length),
        KNumericPrecision := IntJson(a.precision), KNumericScale := IntJson(a.scale)]
  }

  function Flagged(a: AttrDef): Members {
    map[KIsRequired := JBool(a.required), KIsUnique := JBool(a.unique),
        KIsBusinessKey := JBool(a.businessKey), KIsMatchKey := JBool(a.matchKey),
        KIsIndexed := JBool(a.indexed), KIsPii := JBool(a.pii)]
  }

  function Detailed(a: AttrDef): Members {
    map[KDefaultValue := a.default, KValidation := JMap(a.validation), KNormalization := JList(a.normalization),
        KRefEntity := a.refEntity, KRefAttribute := a.refAttribute]
  }

  /** The position is not exported; the order of the list stands for it. */
  function ExportAttr(a: AttrDef): Json {
    JMap(Described(a) + Flagged(a) + Detailed(a))
  }

  function ExportAttrs(attrs: seq<AttrDef>): seq<Json> {
    seq(|attrs|, i requires 0 <= i < |attrs| => ExportAttr(attrs[i]))
  }

  /** `entity_to_dict`, with the attributes in position order. */
  function ExportEntity(d: Definition): Json {
    JMap(map[
      KName := JText(d.head.name), KDisplayName := d.head.displayName, KDescription := d.head.description,
      KDomain := d.head.domain, KRequiresApproval := JBool(d.head.requiresApproval),
      KSoftDelete := JBool(d.head.softDelete),
      KAutoApproveThreshold := IntJson(d.head.autoApproveThreshold),
      KRetentionDays := IntJson(d.head.retentionDays),
      KAttributes := JList(ExportAttrs(d.attributes))])
  }

  function ExportEntities(defs: seq<Definition>): seq<Json> {
    seq(|defs|, i requires 0 <= i < |defs| => ExportEntity(defs[i]))
  }

  function ExportDocument(defs: seq<Definition>, exportedAt: string): Members {
    map[KSchemaVersion := JText("1.0"), KExportedAt := JText(exportedAt), KEntities := JList(ExportEntities(defs))]
  }

  // ---------------------------------------------------------------- complaints

  /** What validation complains about, with the names its message quotes: accepted ones, or what was given. */
  datatype Complaint =
    | IncompatibleVersion(version: Json)
    | NoEntities
    | EntityNotMapping(index: nat)
    | BadEntityName(index: nat, given: Json)
    | DuplicateEntity(entity: string)
    | NoAttributes(entity: string)
    | AttributeNotMapping(entity: string, index: nat)
    | BadAttributeName(entity: string, index: nat, given: Json)
    | DuplicateAttribute(entity: string, name: string)
    | UnsupportedType(entity: string, name: string, dataType: Json)
    | BadValidation(entity: string, name: string)
    | BadNormalization(entity: string, name: string)
    | NoValidAttributes(entity: string)
    | NoBusinessKey(entity: string)

  /** The user's own data inside the message. */
  function Quotes(c: Complaint): seq<Json> {
    match c
    case IncompatibleVersion(v) => [v]
    case BadEntityName(_, n) => [n]
    case DuplicateEntity(e) => [JText(e)]
    case NoAttributes(e) => [JText(e)]
    case AttributeNotMapping(e, _) => [JText(e)]
    case BadAttributeName(e, _, n) => [JText(e), n]
    case DuplicateAttribute(e, n) => [JText(e), JText(n)]
    case UnsupportedType(e, n, t) => [JText(e), JText(n), t]
    case BadValidation(e, n) => [JText(e), JText(n)]
    case BadNormalization(e, n) => [JText(e), JText(n)]
    case NoValidAttributes(e) => [JText(e)]
    case NoBusinessKey(e) => [JText(e)]
    case _ => []
  }

  predicate OccursAt(s: string, part: string, i: nat) {
    i + |part| <= |s| && s[i..i + |part|] == part
  }

  predicate Contains(s: string, part: string) {
    exists i: nat :: i <= |s| && OccursAt(s, part, i)
  }

  predicate Alarming(s: string) {
    Contains(Recase(Lower, s), "warning")
  }

  /**
   The word occurs in the printed value: in a text, or anywhere inside a list or mapping, whose
   punctuation cannot make it up.
   */
  predicate Alarms(j: Json) {
    match j
    case JText(s) => Alarming(s)
    case JList(items) => exists i :: 0 <= i < |items| && Alarms(items[i])
    case JMap(members) => exists k :: k in members && ((k.KOther? && Alarming(k.name)) || Alarms(members[k]))
    case _ => false
  }

  /** The import endpoint tells warnings from errors by looking for the word in the message. */
  predicate Blocking(c: Complaint) {
    !c.NoBusinessKey? && forall i :: 0 <= i < |Quotes(c)| ==> !Alarms(Quotes(c)[i])
  }

  // ---------------------------------------------------------------- validation

  function Spaced(s: string): string {
    if s == "" then "" else [if s[0] == '_' then ' ' else s[0]] + Spaced(s[1..])
  }

  /** A missing display name is made up from the name. */
  function DisplayName(given: Json, name: string): Json {
    if Truth(given) then given else JText(Title(Spaced(name)))
  }

  /** One rule or a list of rules; anything else counts as none. */
  function RuleList(normalization: Json): seq<Json> {
    if normalization.JText? && normalization.s != "" then [normalization]
    else if normalization.JList? then normalization.items
    else []
  }

  /** One attribute whose name is good and new and whose type is supported. */
  function ReadAttr(m: Members, name: string, dataType: string, index: nat): AttrDef {
    var validation, normalization := Get(m, KValidation), Get(m, KNormalization);
    AttrDef(
      name, DisplayName(Get(m, KDisplayName), name), Get(m, KDescription), dataType,
      IntOrNone(Get(m, KLength)), IntOrNone(Get(m, KNumericPrecision)), IntOrNone(Get(m, KNumericScale)),
      BoolOr(m, KIsRequired, false), BoolOr(m, KIsUnique, false),
      BoolOr(m, KIsBusinessKey, false), BoolOr(m, KIsMatchKey, false),
      BoolOr(m, KIsIndexed, false), BoolOr(m, KIsPii, false),
      Get(m, KDefaultValue),
      if validation.JMap? then validation.members else map[],
      RuleList(normalization),
      Get(m, KRefEntity), Get(m, KRefAttribute), index)
  }

  /** Complaints about the two structured members; anything falsy counts as absent. */
  function ShapeComplaints(m: Members, entity: string, name: string): seq<Complaint> {
    var validation, normalization := Get(m, KValidation), Get(m, KNormalization);
    (if Truth(validation) && !validation.JMap? then [BadValidation(entity, name)] else [])
    + (if !Truth(normalization) || normalization.JText? || normalization.JList? then []
       else [BadNormalization(entity, name)])
  }

  datatype AttrsRead = AttrsRead(attrs: seq<AttrDef>, seen: set<string>, complaints: seq<Complaint>)

  /** One turn of the attribute loop. */
  function ReadOne(so: AttrsRead, entity: string, raw: Json, index: nat): AttrsRead {
    if !raw.JMap? then so.(complaints := so.complaints + [AttributeNotMapping(entity, index)])
    else
      var m := raw.members;
      var name := ValidColumn(TextMember(m, KName));
      if name.None? then so.(complaints := so.complaints + [BadAttributeName(entity, index, MemberOrBlank(m, KName))])
      else if name.value in so.seen then so.(complaints := so.complaints + [DuplicateAttribute(entity, name.value)])
      else
        var noted := so.(seen := so.seen + {name.value});
        var dataType := Recase(Lower, TextMember(m, KDataType));
        if dataType !in TYPES then
          noted.(complaints := noted.complaints + [UnsupportedType(entity, name.value, MemberOrBlank(m, KDataType))])
        else
          noted.(attrs := noted.attrs + [ReadAttr(m, name.value, dataType, index)],
                 complaints := noted.complaints + ShapeComplaints(m, entity, name.value))
  }

  function ReadAttrs(entity: string, raws: seq<Json>): AttrsRead {
    if raws == [] then AttrsRead([], {}, [])
    else ReadOne(ReadAttrs(entity, raws[..|raws| - 1]), entity, raws[|raws| - 1], |raws| - 1)
  }

  predicate HasBusinessKey(attrs: seq<AttrDef>) {
    exists i :: 0 <= i < |attrs| && attrs[i].businessKey
  }

  function ReadHead(m: Members, name: string): Head {
    Head(name, DisplayName(Get(m, KDisplayName), name), Get(m, KDescription), Get(m, KDomain),
         BoolOr(m, KRequiresApproval, true), BoolOr(m, KSoftDelete, true),
         IntOrNone(Get(m, KAutoApproveThreshold)), IntOrNone(Get(m, KRetentionDays)))
  }

  datatype DocRead = DocRead(defs: seq<Definition>, seen: set<string>, complaints: seq<Complaint>) {
    function Complain(cs: seq<Complaint>): DocRead {
      this.(complaints := complaints + cs)
    }
  }

  /** One turn of the entity loop. */
  function ReadEntity(so: DocRead, raw: Json, index: nat): DocRead {
    if !raw.JMap? then so.Complain([EntityNotMapping(index)])
    else
      var m := raw.members;
      var name := ValidIdent(TextMember(m, KName));
      if name.None? then so.Complain([BadEntityName(index, MemberOrBlank(m, KName))])
      else if name.value in so.seen then so.Complain([DuplicateEntity(name.value)])
      else
        var noted := so.(seen := so.seen + {name.value});
        var attrs := Get(m, KAttributes);
        if !attrs.JList? || attrs.items == [] then noted.Complain([NoAttributes(name.value)])
        else
          var r := ReadAttrs(name.value, attrs.items);
          if r.attrs == [] then noted.Complain(r.complaints + [NoValidAttributes(name.value)])
          else
            noted.Complain(r.complaints + if HasBusinessKey(r.attrs) then [] else [NoBusinessKey(name.value)])
                 .(defs := noted.defs + [Definition(ReadHead(m, name.value), r.attrs)])
  }

  function ReadEntities(raws: seq<Json>, complaints: seq<Complaint>): DocRead {
    if raws == [] then DocRead([], {}, complaints)
    else ReadEntity(ReadEntities(raws[..|raws| - 1], complaints), raws[|raws| - 1], |raws| - 1)
  }

  /** The part of a version before the first dot. */
  function Major(version: string): string {
    if version == "" || version[0] == '.' then "" else [version[0]] + Major(version[1..])
  }

  function VersionComplaints(doc: Members): seq<Complaint> {
    var version := if KSchemaVersion in doc then doc[KSchemaVersion] else JText("1.0");
    if Major(TextOf(version)) != "1" then [IncompatibleVersion(version)] else []
  }

  /** A document may also be one bare entity. */
  function RawEntities(doc: Members): Json {
    if Get(doc, KEntities).JNull? && KName in doc then JList([JMap(doc)]) else Get(doc, KEntities)
  }

  function ValidatedDocument(doc: Members): (seq<Definition>, seq<Complaint>) {
    var raws := RawEntities(doc);
    if !raws.JList? || raws.items == [] then ([], VersionComplaints(doc) + [NoEntities])
    else
      var so := ReadEntities(raws.items, VersionComplaints(doc));
      (so.defs, so.complaints)
  }

  method ValidateAttributes(entity: string, raws: seq<Json>) returns (attrs: seq<AttrDef>, complaints: seq<Complaint>)
    ensures attrs == ReadAttrs(entity, raws).attrs && complaints == ReadAttrs(entity, raws).complaints
  {
    hide ReadAttr, ValidColumn, ShapeComplaints, TYPES;
    attrs, complaints := [], [];
    var seen: set<string> := {};
    for i := 0 to |raws|
      invariant AttrsRead(attrs, seen, complaints) == ReadAttrs(entity, raws[..i])
    {
      assert raws[..i + 1][..i] == raws[..i];
      if !raws[i].JMap? {
        complaints := complaints + [AttributeNotMapping(entity, i)];
        continue;
      }
      var m := raws[i].members;
      var name := ValidColumn(TextMember(m, KName));
      if name.None? {
        complaints := complaints + [BadAttributeName(entity, i, MemberOrBlank(m, KName))];
        continue;
      }
      if name.value in seen {
        complaints := complaints + [DuplicateAttribute(entity, name.value)];
        continue;
      }
      seen := seen + {name.value};
      var dataType := Recase(Lower, TextMember(m, KDataType));
      if dataType !in TYPES {
        complaints := complaints + [UnsupportedType(entity, name.value, MemberOrBlank(m, KDataType))];
        continue;
      }
      complaints := complaints + ShapeComplaints(m, entity, name.value);
      attrs := attrs + [ReadAttr(m, name.value, dataType, i)];
    }
    assert raws[..|raws|] == raws;
  }

  method ValidateDocument(doc: Members) returns (defs: seq<Definition>, complaints: seq<Complaint>)
    ensures (defs, complaints) == ValidatedDocument(doc)
  {
    hide ReadAttrs, ReadHead, ValidIdent, VersionComplaints, HasBusinessKey;
    complaints := VersionComplaints(doc);
    var raws := RawEntities(doc);
    if !raws.JList? || raws.items == [] {
      return [], complaints + [NoEntities];
    }
    defs := [];
    var seen: set<string> := {};
    ghost var start := complaints;
    for i := 0 to |raws.items|
      invariant DocRead(defs, seen, complaints) == ReadEntities(raws.items[..i], start)
    {
      assert raws.items[..i + 1][..i] == raws.items[..i];
      if !raws.items[i].JMap? {
        complaints := complaints + [EntityNotMapping(i)];
        continue;
      }
      var m := raws.items[i].members;
      var name := ValidIdent(TextMember(m, KName));
      if name.None? {
        complaints := complaints + [BadEntityName(i, MemberOrBlank(m, KName))];
        continue;
      }
      if name.value in seen {
        complaints := complaints + [DuplicateEntity(name.value)];
        continue;
      }
      seen := seen + {name.value};
      var attrs := Get(m, KAttributes);
      if !attrs.JList? || attrs.items == [] {
        complaints := complaints + [NoAttributes(name.value)];
        continue;
      }
      var clean, found := ValidateAttributes(name.value, attrs.items);
      if clean == [] {
        complaints := complaints + (found + [NoValidAttributes(name.value)]);
        continue;
      }
      complaints := complaints + (found + if HasBusinessKey(clean) then [] else [NoBusinessKey(name.value)]);
      defs := defs + [Definition(ReadHead(m, name.value), clean)];
    }
    assert raws.items[..|raws.items|] == raws.items;
  }

  // ---------------------------------------------------------------- round trip

  /** What a stored attribute always satisfies. */
  predicate SoundAttr(a: AttrDef) {
    && ValidColumn(a.name) == Some(a.name) && a.dataType in TYPES && Recase(Lower, a.dataType) == a.dataType
    && Truth(a.displayName)
  }

  ghost predicate SoundDefinition(d: Definition) {
    && ValidIdent(d.head.name) == Some(d.head.name) && Truth(d.head.displayName)
    && d.attributes != []
    && (forall i :: 0 <= i < |d.attributes| ==> SoundAttr(d.attributes[i]))
    && (forall i, j :: 0 <= i < j < |d.attributes| ==> d.attributes[i].name != d.attributes[j].name)
  }

  function Renumbered(attrs: seq<AttrDef>): seq<AttrDef> {
    seq(|attrs|, i requires 0 <= i < |attrs| => attrs[i].(position := i))
  }

  predicate Member(m: Members, key: Key, j: Json) {
    key in m && m[key] == j
  }

  /** Which part of an exported attribute a member belongs to. */
  function PartOf(k: Key): nat {
    match k
    case KName | KDisplayName | KDescription | KDataType | KLength | KNumericPrecision | KNumericScale => 0
    case KIsRequired | KIsUnique | KIsBusinessKey | KIsMatchKey | KIsIndexed | KIsPii => 1
    case _ => 2
  }

  lemma DescribedMembers(a: AttrDef)
    ensures var m := Described(a);
      && (forall k :: k in m ==> PartOf(k) == 0)
      && Member(m, KName, JText(a.name))
      && Member(m, KDisplayName, a.displayName)
      && Member(m, KDescription, a.description)
      && Member(m, KDataType, JText(a.dataType))
      && Member(m, KLength, IntJson(a.length))
      && Member(m, KNumericPrecision, IntJson(a.precision))
      && Member(m, KNumericScale, IntJson(a.scale))
  {
  }

  lemma DescribedMembersExported(a: AttrDef)
    ensures ExportAttr(a).JMap?
    ensures var m := ExportAttr(a).members;
      && Member(m, KName, JText(a.name))
      && Member(m, KDisplayName, a.displayName)
      && Member(m, KDescription, a.description)
      && Member(m, KDataType, JText(a.dataType))
      && Member(m, KLength, IntJson(a.length))
      && Member(m, KNumericPrecision, IntJson(a.precision))
      && Member(m, KNumericScale, IntJson(a.scale))
  {
    hide Described, Flagged, Detailed, IntJson;
    DescribedMembers(a);
    FlaggedPart(a);
    FlaggedMembers(a);
    DetailedMembers(a);
  }

  lemma FlaggedPart(a: AttrDef)
    ensures forall k :: k in Flagged(a) ==> PartOf(k) == 1
  {
  }

  lemma FlaggedMembers(a: AttrDef)
    ensures var m := Flagged(a);
      && Member(m, KIsRequired, JBool(a.required))
      && Member(m, KIsUnique, JBool(a.unique))
      && Member(m, KIsBusinessKey, JBool(a.businessKey))
      && Member(m, KIsMatchKey, JBool(a.matchKey))
      && Member(m, KIsIndexed, JBool(a.indexed))
      && Member(m, KIsPii, JBool(a.pii))
  {
  }

  lemma FlaggedMembersExported(a: AttrDef)
    ensures ExportAttr(a).JMap?
    ensures var m := ExportAttr(a).members;
      && Member(m, KIsRequired, JBool(a.required))
      && Member(m, KIsUnique, JBool(a.unique))
      && Member(m, KIsBusinessKey, JBool(a.businessKey))
      && Member(m, KIsMatchKey, JBool(a.matchKey))
      && Member(m, KIsIndexed, JBool(a.indexed))
      && Member(m, KIsPii, JBool(a.pii))
  {
    hide Described, Flagged, Detailed, IntJson;
    DescribedMembers(a);
    FlaggedPart(a);
    FlaggedMembers(a);
    DetailedMembers(a);
  }

  lemma DetailedMembers(a: AttrDef)
    ensures var m := Detailed(a);
      && (forall k :: k in m ==> PartOf(k) == 2)
      && Member(m, KDefaultValue, a.default)
      && Member(m, KValidation, JMap(a.validation))
      && Member(m, KNormalization, JList(a.normalization))
      && Member(m, KRefEntity, a.refEntity)
      && Member(m, KRefAttribute, a.refAttribute)
  {
  }

  lemma DetailedMembersExported(a: AttrDef)
    ensures ExportAttr(a).JMap?
    ensures var m := ExportAttr(a).members;
      && Member(m, KDefaultValue, a.default)
      && Member(m, KValidation, JMap(a.validation))
      && Member(m, KNormalization, JList(a.normalization))
      && Member(m, KRefEntity, a.refEntity)
      && Member(m, KRefAttribute, a.refAttribute)
  {
    hide Described, Flagged, Detailed, IntJson;
    DescribedMembers(a);
    FlaggedPart(a);
    FlaggedMembers(a);
    DetailedMembers(a);
  }

  lemma ExportedMembers(a: AttrDef)
    ensures ExportAttr(a).JMap?
    ensures var m := ExportAttr(a).members;
      && Member(m, KName, JText(a.name)) && Member(m, KDisplayName, a.displayName)
      && Member(m, KDescription, a.description) && Member(m, KDataType, JText(a.dataType))
      && Member(m, KLength, IntJson(a.length)) && Member(m, KNumericPrecision, IntJson(a.precision))
      && Member(m, KNumericScale, IntJson(a.scale)) && Member(m, KIsRequired, JBool(a.required))
      && Member(m, KIsUnique, JBool(a.unique)) && Member(m, KIsBusinessKey, JBool(a.businessKey))
      && Member(m, KIsMatchKey, JBool(a.matchKey)) && Member(m, KIsIndexed, JBool(a.indexed))
      && Member(m, KIsPii, JBool(a.pii)) && Member(m, KDefaultValue, a.default)
      && Member(m, KValidation, JMap(a.validation)) && Member(m, KNormalization, JList(a.normalization))
      && Member(m, KRefEntity, a.refEntity) && Member(m, KRefAttribute, a.refAttribute)
  {
    hide ExportAttr, IntJson;
    DescribedMembersExported(a);
    FlaggedMembersExported(a);
    DetailedMembersExported(a);
  }

  lemma FlagRead(m: Members, key: Key, b: bool, default: bool)
    requires Member(m, key, JBool(b))
    ensures BoolOr(m, key, default) == b
  {
  }

  lemma IntRead(m: Members, key: Key, i: Option<int>)
    requires Member(m, key, IntJson(i))
    ensures IntOrNone(Get(m, key)) == i
  {
  }

  lemma ReadExported(a: AttrDef, entity: string, index: nat)
    requires SoundAttr(a)
    ensures ExportAttr(a).JMap?
    ensures var m := ExportAttr(a).members;
      && TextMember(m, KName) == a.name && TextMember(m, KDataType) == a.dataType
      && ReadAttr(m, a.name, a.dataType, index) == a.(position := index)
      && ShapeComplaints(m, entity, a.name) == []
  {
    hide ExportAttr, IntJson, IntOrNone, BoolOr, ValidColumn, TYPES;
    ExportedMembers(a);
    var m := ExportAttr(a).members;
    IntRead(m, KLength, a.length);
    IntRead(m, KNumericPrecision, a.precision);
    IntRead(m, KNumericScale, a.scale);
    FlagRead(m, KIsRequired, a.required, false);
    FlagRead(m, KIsUnique, a.unique, false);
    FlagRead(m, KIsBusinessKey, a.businessKey, false);
    FlagRead(m, KIsMatchKey, a.matchKey, false);
    FlagRead(m, KIsIndexed, a.indexed, false);
    FlagRead(m, KIsPii, a.pii, false);
  }

  lemma ExportedHead(d: Definition)
    ensures ExportEntity(d).JMap?
    ensures var m := ExportEntity(d).members;
      && Member(m, KName, JText(d.head.name)) && Member(m, KDisplayName, d.head.displayName)
      && Member(m, KDescription, d.head.description) && Member(m, KDomain, d.head.domain)
      && Member(m, KRequiresApproval, JBool(d.head.requiresApproval))
      && Member(m, KSoftDelete, JBool(d.head.softDelete))
      && Member(m, KAutoApproveThreshold, IntJson(d.head.autoApproveThreshold))
      && Member(m, KRetentionDays, IntJson(d.head.retentionDays))
      && Member(m, KAttributes, JList(ExportAttrs(d.attributes)))
  {
    hide IntJson, ExportAttrs;
  }

  lemma HeadRead(d: Definition)
    requires Truth(d.head.displayName)
    ensures ReadHead(ExportEntity(d).members, d.head.name) == d.head
  {
    hide ExportEntity, IntJson, IntOrNone, BoolOr;
    ExportedHead(d);
    var m := ExportEntity(d).members;
    FlagRead(m, KRequiresApproval, d.head.requiresApproval, true);
    FlagRead(m, KSoftDelete, d.head.softDelete, true);
    IntRead(m, KAutoApproveThreshold, d.head.autoApproveThreshold);
    IntRead(m, KRetentionDays, d.head.retentionDays);
  }

  ghost predicate SoundAttrs(attrs: seq<AttrDef>) {
    && (forall i :: 0 <= i < |attrs| ==> SoundAttr(attrs[i]))
    && (forall i, j :: 0 <= i < j < |attrs| ==> attrs[i].name != attrs[j].name)
  }

  lemma ReadOneExported(so: AttrsRead, entity: string, a: AttrDef, index: nat)
    requires SoundAttr(a) && a.name !in so.seen
    ensures ReadOne(so, entity, ExportAttr(a), index)
         == AttrsRead(so.attrs + [a.(position := index)], so.seen + {a.name}, so.complaints)
  {
    hide ExportAttr, ReadAttr, ValidColumn, ShapeComplaints, TYPES, TextMember;
    ReadExported(a, entity, index);
    assert so.complaints + [] == so.complaints;
  }

  function NamesOf(attrs: seq<AttrDef>): set<string> {
    set i | 0 <= i < |attrs| :: attrs[i].name
  }

  lemma OneMoreName(attrs: seq<AttrDef>)
    requires attrs != []
    ensures NamesOf(attrs) == NamesOf(attrs[..|attrs| - 1]) + {attrs[|attrs| - 1].name}
    ensures Renumbered(attrs) == Renumbered(attrs[..|attrs| - 1]) + [attrs[|attrs| - 1].(position := |attrs| - 1)]
    ensures ExportAttrs(attrs)[..|attrs| - 1] == ExportAttrs(attrs[..|attrs| - 1])
    ensures SoundAttrs(attrs) ==> attrs[|attrs| - 1].name !in NamesOf(attrs[..|attrs| - 1])
  {
    hide ExportAttr, SoundAttr;
    var n := |attrs| - 1;
    forall name | name in NamesOf(attrs) ensures name in NamesOf(attrs[..n]) + {attrs[n].name} {
      var i :| 0 <= i < |attrs| && attrs[i].name == name;
      assert i < n ==> attrs[..n][i].name == name;
    }
    assert forall i :: 0 <= i < n ==> attrs[..n][i] == attrs[i];
  }

  lemma {:induction false} AttrsRoundTrip(entity: string, attrs: seq<AttrDef>)
    requires SoundAttrs(attrs)
    ensures ReadAttrs(entity, ExportAttrs(attrs)) == AttrsRead(Renumbered(attrs), NamesOf(attrs), [])
  {
    hide ExportAttr, ReadOne, SoundAttr, NamesOf, Renumbered;
    if attrs == [] {
      assert ExportAttrs(attrs) == [];
      NoNames(attrs);
    } else {
      var n := |attrs| - 1;
      AttrsRoundTrip(entity, attrs[..n]);
      OneMoreName(attrs);
      ReadOneExported(ReadAttrs(entity, ExportAttrs(attrs[..n])), entity, attrs[n], n);
    }
  }

  lemma NoNames(attrs: seq<AttrDef>)
    requires attrs == []
    ensures NamesOf(attrs) == {} && Renumbered(attrs) == []
  {
  }

  lemma RenumberedKey(attrs: seq<AttrDef>)
    ensures HasBusinessKey(Renumbered(attrs)) <==> HasBusinessKey(attrs)
  {
    if HasBusinessKey(attrs) {
      var i :| 0 <= i < |attrs| && attrs[i].businessKey;
      assert Renumbered(attrs)[i].businessKey;
    }
    if HasBusinessKey(Renumbered(attrs)) {
      var i :| 0 <= i < |attrs| && Renumbered(attrs)[i].businessKey;
      assert attrs[i].businessKey;
    }
  }

  function Renumber(d: Definition): Definition {
    d.(attributes := Renumbered(d.attributes))
  }

  function RenumberAll(defs: seq<Definition>): seq<Definition> {
    seq(|defs|, i requires 0 <= i < |defs| => Renumber(defs[i]))
  }

  lemma EntityRoundTrip(so: DocRead, d: Definition, index: nat)
    requires SoundDefinition(d) && d.head.name !in so.seen
    ensures ReadEntity(so, ExportEntity(d), index)
         == DocRead(so.defs + [Renumber(d)], so.seen + {d.head.name},
                    so.complaints + if HasBusinessKey(d.attributes) then [] else [NoBusinessKey(d.head.name)])
  {
    hide ExportEntity, ReadHead, ReadAttrs, ValidIdent, HasBusinessKey, ExportAttr, NamesOf;
    ExportedHead(d);
    HeadRead(d);
    AttrsRoundTrip(d.head.name, d.attributes);
    RenumberedKey(d.attributes);
    var none: seq<Complaint> := [];
    assert forall cs: seq<Complaint> :: none + cs == cs;
  }

  ghost predicate SoundDefinitions(defs: seq<Definition>) {
    && (forall i :: 0 <= i < |defs| ==> SoundDefinition(defs[i]))
    && (forall i, j :: 0 <= i < j < |defs| ==> defs[i].head.name != defs[j].head.name)
  }

  lemma {:induction false} EntitiesRoundTrip(defs: seq<Definition>)
    requires SoundDefinitions(defs)
    ensures var so := ReadEntities(ExportEntities(defs), []);
      && so.defs == RenumberAll(defs)
      && so.seen == (set i | 0 <= i < |defs| :: defs[i].head.name)
      && forall c :: c in so.complaints ==> c.NoBusinessKey?
  {
    hide ReadEntity, ExportEntity, SoundDefinition, Renumber;
    if defs == [] {
      assert ExportEntities(defs) == [];
    } else {
      var n := |defs| - 1;
      assert SoundDefinitions(defs[..n]);
      EntitiesRoundTrip(defs[..n]);
      assert ExportEntities(defs)[..n] == ExportEntities(defs[..n]);
      var before := set i | 0 <= i < n :: defs[..n][i].head.name;
      assert defs[n].head.name !in before;
      EntityRoundTrip(ReadEntities(ExportEntities(defs[..n]), []), defs[n], n);
      assert RenumberAll(defs) == RenumberAll(defs[..n]) + [Renumber(defs[n])];
      assert (set i | 0 <= i < |defs| :: defs[i].head.name) == before + {defs[n].head.name};
    }
  }

  /**
   Definition round trip: validating the exported form of any well-formed definitions gives them
   back, attributes renumbered in order, with nothing but missing-business-key warnings.
   */
  lemma DocumentRoundTrip(defs: seq<Definition>, exportedAt: string)
    requires defs != [] && SoundDefinitions(defs)
    ensures ValidatedDocument(ExportDocument(defs, exportedAt)).0 == RenumberAll(defs)
    ensures forall c :: c in ValidatedDocument(ExportDocument(defs, exportedAt)).1 ==> !Blocking(c)
  {
    hide ReadEntities, ExportEntity, SoundDefinition, Renumber;
    var doc := ExportDocument(defs, exportedAt);
    EntitiesRoundTrip(defs);
    MajorOne();
    assert Get(doc, KEntities) == JList(ExportEntities(defs)) && KSchemaVersion in doc;
    assert doc[KSchemaVersion] == JText("1.0");
    assert VersionComplaints(doc) == [];
    assert |ExportEntities(defs)| == |defs|;
  }

  lemma MajorOne()
    ensures Major("1.0") == "1"
  {
    assert "1.0"[1..] == ".0";
    assert Major(".0") == "";
  }

  /** The endpoint's test for warnings reads the whole message, the data it quotes included. */
  lemma AlarmingQuoteNeverBlocks(c: Complaint, i: nat)
    requires i < |Quotes(c)| && Alarms(Quotes(c)[i])
    ensures !Blocking(c)
  {
  }

  // ---------------------------------------------------------------- what an alarming name lets through

  /** The complaint means that an attribute was left out. */
  predicate LeavesOut(c: Complaint) {
    c.AttributeNotMapping? || c.BadAttributeName? || c.DuplicateAttribute? || c.UnsupportedType?
  }

  function LeftOut(cs: seq<Complaint>): nat {
    if cs == [] then 0 else LeftOut(cs[..|cs| - 1]) + if LeavesOut(cs[|cs| - 1]) then 1 else 0
  }

  lemma {:induction false} LeftOutConcat(a: seq<Complaint>, b: seq<Complaint>)
    ensures LeftOut(a + b) == LeftOut(a) + LeftOut(b)
  {
    if b == [] {
      assert a + b == a;
    } else {
      assert (a + b)[..|a + b| - 1] == a + b[..|b| - 1];
      LeftOutConcat(a, b[..|b| - 1]);
    }
  }

  /** The message names the entity. */
  predicate About(c: Complaint, entity: string) {
    0 < |Quotes(c)| && Quotes(c)[0] == JText(entity)
  }

  /**
   What one turn of the attribute loop adds: an attribute and what is odd about it, or the reason
   for leaving it out.
   */
  lemma ReadOneAdds(so: AttrsRead, entity: string, raw: Json, index: nat) returns (more: seq<Complaint>)
    ensures var so' := ReadOne(so, entity, raw, index);
      && so'.complaints == so.complaints + more && (forall c :: c in more ==> About(c, entity))
      && |more| <= 2
      && if |so'.attrs| == |so.attrs| then |more| == 1 && LeavesOut(more[0])
         else |so'.attrs| == |so.attrs| + 1 && forall c :: c in more ==> !LeavesOut(c)
  {
    hide ValidColumn, TYPES, ReadAttr, TextMember, Recase, ShapeComplaints, MemberOrBlank;
    if !raw.JMap? {
      return [AttributeNotMapping(entity, index)];
    }
    var name := ValidColumn(TextMember(raw.members, KName));
    if name.None? {
      return [BadAttributeName(entity, index, MemberOrBlank(raw.members, KName))];
    }
    if name.value in so.seen {
      return [DuplicateAttribute(entity, name.value)];
    }
    var dataType := Recase(Lower, TextMember(raw.members, KDataType));
    if dataType !in TYPES {
      return [UnsupportedType(entity, name.value, MemberOrBlank(raw.members, KDataType))];
    }
    ShapeComplaintsOnly(raw.members, entity, name.value);
    return ShapeComplaints(raw.members, entity, name.value);
  }

  lemma ShapeComplaintsOnly(m: Members, entity: string, name: string)
    ensures |ShapeComplaints(m, entity, name)| <= 2
    ensures forall c :: c in ShapeComplaints(m, entity, name) ==> About(c, entity) && !LeavesOut(c)
  {
    hide Truth;
  }

  lemma ReadOneTells(so: AttrsRead, entity: string, raw: Json, index: nat)
    ensures var so' := ReadOne(so, entity, raw, index);
      && (forall c :: c in so'.complaints ==> c in so.complaints || About(c, entity))
      && |so'.attrs| + LeftOut(so'.complaints) == |so.attrs| + LeftOut(so.complaints) + 1
  {
    hide ReadOne, LeftOut, LeavesOut, About;
    var more := ReadOneAdds(so, entity, raw, index);
    LeftOutConcat(so.complaints, more);
    FewLeftOut(more);
  }

  lemma FewLeftOut(cs: seq<Complaint>)
    requires |cs| <= 2
    ensures (forall c :: c in cs ==> !LeavesOut(c)) ==> LeftOut(cs) == 0
    ensures |cs| == 1 && LeavesOut(cs[0]) ==> LeftOut(cs) == 1
  {
    if |cs| == 2 {
      assert cs[..1][..0] == [];
      assert LeftOut(cs[..1]) == if LeavesOut(cs[0]) then 1 else 0;
    }
  }

  /** Every attribute of the document is either read or complained about, and every complaint names the entity. */
  lemma {:induction false} AttrsAccounted(entity: string, raws: seq<Json>)
    ensures var so := ReadAttrs(entity, raws);
      |so.attrs| + LeftOut(so.complaints) == |raws| && forall c :: c in so.complaints ==> About(c, entity)
  {
    if raws != [] {
      hide ReadOne, About, LeftOut;
      var n := |raws| - 1;
      AttrsAccounted(entity, raws[..n]);
      ReadOneTells(ReadAttrs(entity, raws[..n]), entity, raws[n], n);
    }
  }

  /**
   An entity whose name contains the word never adds a blocking complaint, whatever is wrong with it.
   It is imported with the attributes that could be read, the others dropped, or left out altogether.
   */
  lemma AlarmingEntityImported(so: DocRead, raw: Json, index: nat)
    requires raw.JMap? && ValidIdent(TextMember(raw.members, KName)).Some?
    requires Alarming(ValidIdent(TextMember(raw.members, KName)).value)
    ensures var so', name, attrs := ReadEntity(so, raw, index), ValidIdent(TextMember(raw.members, KName)).value,
                                    Get(raw.members, KAttributes);
      && (forall c :: c in so'.complaints && Blocking(c) ==> c in so.complaints)
      && (name in so.seen || !attrs.JList? ==> so'.defs == so.defs)
      && (name !in so.seen && attrs.JList? ==>
            var r := ReadAttrs(name, attrs.items);
            && |r.attrs| + LeftOut(r.complaints) == |attrs.items|
            && so'.defs == so.defs + if r.attrs == [] then [] else [Definition(ReadHead(raw.members, name), r.attrs)])
  {
    hide ValidIdent, ReadAttrs, ReadHead, HasBusinessKey, TextMember, Alarming, LeftOut;
    var name, attrs := ValidIdent(TextMember(raw.members, KName)).value, Get(raw.members, KAttributes);
    forall c | About(c, name) ensures !Blocking(c) {
      AlarmingQuoteNeverBlocks(c, 0);
    }
    if attrs.JList? {
      AttrsAccounted(name, attrs.items);
      NothingRead(name);
    }
  }

  lemma NothingRead(entity: string)
    ensures ReadAttrs(entity, []) == AttrsRead([], {}, [])
  {
  }

  /**
   A document of such entities alone is always imported: nothing it contains is found blocking, and
   what is imported are the definitions that could be read.
   */
  lemma {:induction false} AlarmingDocumentImported(raws: seq<Json>)
    requires forall i :: 0 <= i < |raws| ==>
      raws[i].JMap? && ValidIdent(TextMember(raws[i].members, KName)).Some?
      && Alarming(ValidIdent(TextMember(raws[i].members, KName)).value)
    ensures forall c :: c in ReadEntities(raws, []).complaints ==> !Blocking(c)
  {
    if raws != [] {
      hide ValidIdent, ReadEntity, TextMember, Alarming, Blocking;
      var n := |raws| - 1;
      AlarmingDocumentImported(raws[..n]);
      AlarmingEntityImported(ReadEntities(raws[..n], []), raws[n], n);
    }
  }
}
