/**
 The values that travel through the platform: what a JSON payload holds, what a
 typed column holds, and the identities and clock readings beside them.
 */
module Values {
  import opened Common

  /** How a value that is not text, whole number or boolean behaves under coercion. */
  datatype Kind = Float | Composite | Foreign

  /**
   A payload or column value. `Opaque` stands for every value the model does not look
   into (decimals, floats, dates, timestamps, uuids, JSON documents): it carries the text
   Python prints for it (the JSON dump for a dict or list) and the text PostgreSQL casts it to.
   */
  datatype Value =
    | Null
    | Text(s: string)
    | Int(i: int)
    | Bool(b: bool)
    | Opaque(kind: Kind, py: string, pg: string)

  /** Business columns (or payload members) by name. */
  type Row = map<string, Value>

  /** A golden record's mdm_id. */
  type RecordId = nat

  /** A reading of now(): the start time of the transaction. */
  type Time = int

  /** Python truthiness of an optional string. */
  predicate Truthy(s: Option<string>) {
    s.Some? && s.value != ""
  }
}
