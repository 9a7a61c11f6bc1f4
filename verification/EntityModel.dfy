/**
 The definition a pipeline runs under: one entity, its attributes and the platform
 functions the model treats as given (app/models/meta.py, app/config.py).
 */
module EntityModel {
  import opened Common
  import opened Values
  import opened TypeSystem
  import opened Normalization

  /** The `validation` mapping of an attribute. A missing or zero length limit is no limit. */
  datatype Checks = Checks(
    maxLength: Option<int>,
    minLength: Option<int>,
    pattern: Option<string>,
    allowed: seq<string>,
    min: Option<real>,
    max: Option<real>)

  /**
   `fallback` is the configured default as text, used by validation; `ddlDefault` is what the
   DEFAULT clause of the staging column evaluates to (Null without one).
   */
  datatype Attribute = Attribute(
    name: string,
    dataType: LogicalType,
    length: Option<int>,
    precision: Option<int>,
    scale: Option<int>,
    required: bool,
    unique: bool,
    businessKey: bool,
    matchKey: bool,
    fallback: Option<string>,
    ddlDefault: Value,
    checks: Checks,
    rules: seq<Rule>)

  datatype PatternResult = Match | NoMatch | BadPattern

  datatype Coerced = Good(value: Value) | Bad

  /**
   What the model takes as given: `convert` coerces to the types it does not look into,
   `whole` reads a whole number out of a float or other foreign value, `number` orders
   decimals and floats, the last three are the regular-expression engine.
   */
  datatype Platform = Platform(
    convert: (Value, LogicalType) -> Coerced,
    whole: Value -> Option<int>,
    number: Value -> Option<real>,
    matches: (string, string) -> PatternResult,
    isEmail: string -> bool,
    isUrl: string -> bool)

  /** `softDelete` is the entity flag together with the SOFT_DELETE setting. */
  datatype Entity = Entity(
    name: string,
    attributes: seq<Attribute>,
    softDelete: bool,
    platform: Platform)

  /** Column names are unique within an entity and never use the reserved prefix. */
  ghost predicate WellFormed(e: Entity) {
    && (forall i, j :: 0 <= i < j < |e.attributes| ==> e.attributes[i].name != e.attributes[j].name)
    && (forall a :: a in e.attributes ==> !Reserved(a.name))
  }

  predicate Reserved(name: string) {
    "mdm_" <= name
  }

  function Names(attrs: seq<Attribute>): set<string> {
    set a | a in attrs :: a.name
  }

  function BusinessKey(e: Entity): seq<Attribute> {
    Selected(e.attributes, true)
  }

  function MatchKeys(e: Entity): seq<Attribute> {
    Selected(e.attributes, false)
  }

  function Selected(attrs: seq<Attribute>, business: bool): (r: seq<Attribute>)
    ensures forall a :: a in r <==> a in attrs && (if business then a.businessKey else a.matchKey)
  {
    if attrs == [] then []
    else
      var a := attrs[0];
      assert attrs == [a] + attrs[1..];
      (if (if business then a.businessKey else a.matchKey) then [a] else []) + Selected(attrs[1..], business)
  }

  /** A missing column reads as null. */
  function At(values: Row, name: string): Value {
    if name in values then values[name] else Null
  }

  function ColumnType(a: Attribute): Option<PgType> {
    PgTypeOf(a.dataType, a.length, a.precision, a.scale)
  }

  /** The value can be stored in the attribute's column. */
  predicate Storable(a: Attribute, v: Value) {
    ColumnType(a).Some? ==> Fits(v, ColumnType(a).value)
  }
}
