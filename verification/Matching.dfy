/**
 Match keys and the search for the golden record a write applies to
 (app/services/validation.py `build_match_key`, app/services/pipeline.py `_resolve_target`).
 */
module Matching {
  import opened Common
  import opened Values
  import opened Strings
  import opened EntityModel
  import opened Validation
  import opened Ledger

  // ---------------------------------------------------------------- the composite key

  /** One attribute's contribution: trimmed, lower case, no punctuation, single spaces. */
  function Component(v: Value): string {
    Collapse(Keep(WordsAndSpace, Recase(Lower, Strip(PyText(v)))))
  }

  function Join(parts: seq<string>): string {
    if parts == [] then ""
    else if |parts| == 1 then parts[0]
    else Join(parts[..|parts| - 1]) + "|" + parts[|parts| - 1]
  }

  function Components(values: Row, keys: seq<Attribute>): seq<string> {
    seq(|keys|, i requires 0 <= i < |keys| => Component(At(values, keys[i].name)))
  }

  function KeyAttributes(e: Entity): seq<Attribute> {
    if MatchKeys(e) != [] then MatchKeys(e) else BusinessKey(e)
  }

  predicate HasAll(values: Row, keys: seq<Attribute>) {
    forall a :: a in keys ==> !At(values, a.name).Null?
  }

  function MatchKey(e: Entity, values: Row): Option<string> {
    var keys := KeyAttributes(e);
    if keys == [] || !HasAll(values, keys) then None else Some(Join(Components(values, keys)))
  }

  method BuildMatchKey(e: Entity, values: Row) returns (key: Option<string>)
    ensures key == MatchKey(e, values)
  {
    hide Component, KeyAttributes, Join;
    var keys := KeyAttributes(e);
    if keys == [] {
      return None;
    }
    var parts: seq<string> := [];
    for i := 0 to |keys|
      invariant parts == Components(values, keys)[..i]
      invariant forall j :: 0 <= j < i ==> !At(values, keys[j].name).Null?
    {
      var v := At(values, keys[i].name);
      if v.Null? {
        assert keys[i] in keys;
        return None;
      }
      parts := parts + [Component(v)];
    }
    assert HasAll(values, keys);
    assert parts == Components(values, keys);
    return Some(Join(parts));
  }

  // ---------------------------------------------------------------- the golden record

  /** `trim` in PostgreSQL takes blanks only. */
  function PgTrimLeft(s: string): string {
    if s != "" && s[0] == ' ' then PgTrimLeft(s[1..]) else s
  }

  function PgTrimRight(s: string): string {
    if s != "" && s[|s| - 1] == ' ' then PgTrimRight(s[..|s| - 1]) else s
  }

  /** `lower(trim(column::text))`; null stays null. */
  function ColumnProbe(v: Value): Option<string> {
    var text := match v
      case Null => None
      case Text(s) => Some(s)
      case Int(i) => Some(IntText(i))
      case Bool(b) => Some(if b then "true" else "false")
      case Opaque(_, _, pg) => Some(pg);
    if text.None? then None else Some(Recase(Lower, PgTrimRight(PgTrimLeft(text.value))))
  }

  /** `str(value).strip().lower()`. */
  function ValueProbe(v: Value): string {
    Recase(Lower, Strip(PyText(v)))
  }

  predicate SameBusinessKey(keys: seq<Attribute>, values: Row, golden: Row) {
    forall a :: a in keys ==> !At(golden, a.name).Null? && At(golden, a.name) == At(values, a.name)
  }

  predicate SameProbe(keys: seq<Attribute>, values: Row, golden: Row) {
    forall a :: a in keys ==> ColumnProbe(At(golden, a.name)) == Some(ValueProbe(At(values, a.name)))
  }

  function ByBusinessKey(e: Entity, live: map<RecordId, GoldenRow>, values: Row): set<RecordId> {
    set id | id in live && !live[id].deleted && SameBusinessKey(BusinessKey(e), values, live[id].values)
  }

  function ByMatchKey(e: Entity, live: map<RecordId, GoldenRow>, values: Row): set<RecordId> {
    set id | id in live && !live[id].deleted && SameProbe(MatchKeys(e), values, live[id].values)
  }

  ghost function AnyOf(ids: set<RecordId>): RecordId {
    if ids == {} then 0 else var id :| id in ids; id
  }

  /** Which row PostgreSQL returns first is up to PostgreSQL; it is one of the matching ones. */
  type Chooser = f: set<RecordId> -> RecordId | forall ids :: ids != {} ==> f(ids) in ids
    ghost witness AnyOf

  /** A write's explicit identifier, as casting its text to uuid leaves it. */
  datatype Target = NoTarget | Malformed | Explicit(id: RecordId)

  datatype Operation = OpInsert | OpUpdate | OpDelete | OpUpsert | OpOther(name: string)

  datatype Resolution =
    | CastFailed
    | Resolved(target: Option<RecordId>, faults: set<Fault>)

  function Pick(found: set<RecordId>, pick: Chooser): Option<RecordId> {
    if found == {} then None else Some(pick(found))
  }

  /** Explicit identifier, then business key, then match key; nothing is tried after a key that is complete. */
  function Resolve(e: Entity, live: map<RecordId, GoldenRow>, values: Row, target: Target, op: Operation,
                   pick: Chooser): Resolution
  {
    match target
    case Malformed => CastFailed
    case Explicit(id) =>
      if id in live then Resolved(Some(id), {}) else Resolved(None, {Fault("mdm_id", NotFound)})
    case NoTarget =>
      var business, keys := BusinessKey(e), MatchKeys(e);
      if business != [] && HasAll(values, business) then
        var found := Pick(ByBusinessKey(e, live, values), pick);
        Resolved(found, When(found.Some? && op.OpInsert?, business[0].name, Duplicate))
      else if keys != [] && HasAll(values, keys) then
        var found := Pick(ByMatchKey(e, live, values), pick);
        Resolved(found, When(found.Some? && op.OpInsert?, keys[0].name, ProbableDuplicate))
      else
        Resolved(None, {})
  }
}
