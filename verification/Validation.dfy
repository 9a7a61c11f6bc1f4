/**
 Coercion and validation of one inbound record (app/services/validation.py).
 */
module Validation {
  import opened Common
  import opened Values
  import opened Strings
  import opened TypeSystem
  import opened Normalization
  import opened EntityModel

  // ---------------------------------------------------------------- numbers as text

  function Decimal(n: nat): string {
    (if n < 10 then "" else Decimal(n / 10)) + [(n % 10) as char + '0']
  }

  function IntText(i: int): string {
    if i < 0 then "-" + Decimal(-i) else Decimal(i)
  }

  /** Python's `str`. */
  function PyText(v: Value): string {
    match v
    case Null => "None"
    case Text(s) => s
    case Int(i) => IntText(i)
    case Bool(b) => if b then "True" else "False"
    case Opaque(_, py, _) => py
  }

  /** Digits with single underscores between them, as Python's `int` reads them. */
  function ParseDigits(s: string): Option<nat> {
    if s == "" || !IsDigit(s[|s| - 1]) then None
    else
      var d := (s[|s| - 1] - '0') as nat;
      var rest := s[..|s| - 1];
      if rest == "" then Some(d)
      else
        var body := if rest[|rest| - 1] == '_' then rest[..|rest| - 1] else rest;
        var high := ParseDigits(body);
        if high.None? then None else Some(10 * high.value + d)
  }

  function WithoutCommas(s: string): string {
    if s == "" then "" else (if s[0] == ',' then "" else [s[0]]) + WithoutCommas(s[1..])
  }

  /** Python's `int` of a text; None where it raises ValueError. */
  function ParseWhole(text: string): Option<int> {
    var s := Strip(text);
    if s == "" then None
    else if s[0] == '-' || s[0] == '+' then
      match ParseDigits(s[1..])
      case None => None
      case Some(n) => if s[0] == '-' then Some(0 - n) else Some(n)
    else ParseDigits(s)
  }

  /** `int(str(value).strip().replace(",", ""))`. */
  function ParseInt(text: string): Option<int> {
    ParseWhole(WithoutCommas(Strip(text)))
  }

  // ---------------------------------------------------------------- coercion

  const TRUTHY := {"true", "t", "yes", "y", "1", "on"}
  const FALSY := {"false", "f", "no", "n", "0", "off"}

  function CoerceInt(p: Platform, v: Value, limit: int): Coerced {
    var n := match v
      case Bool(b) => Some(if b then 1 else 0)
      case Int(i) => Some(i)
      case Text(s) => ParseInt(s)
      case _ => p.whole(v);
    if v.Bool? then Good(Int(n.value))
    else if n.None? || n.value > limit || -n.value > limit then Bad
    else Good(Int(n.value))
  }

  /** The typed value, or Bad where the source returns an error message. Blank text becomes null. */
  function Coerce(p: Platform, v: Value, t: LogicalType): Coerced {
    if v.Null? || (v.Text? && Blank(v.s)) then Good(Null)
    else match t
      case StringT | TextT | UrlT | EnumT => Good(Text(PyText(v)))
      case EmailT =>
        var s := Strip(PyText(v));
        if p.isEmail(s) then Good(Text(s)) else Bad
      case IntegerT => CoerceInt(p, v, MAX_INT)
      case BigintT => CoerceInt(p, v, MAX_BIGINT)
      case BooleanT =>
        if v.Bool? then Good(v)
        else
          var s := Recase(Lower, Strip(PyText(v)));
          if s in TRUTHY then Good(Bool(true)) else if s in FALSY then Good(Bool(false)) else Bad
      case _ => p.convert(v, t)
  }

  // ---------------------------------------------------------------- constraints

  datatype Code =
    | UnknownField | TypeMismatch | Required | MaxLength | MinLength | Regex | BadRegex
    | NotAllowed | BelowMin | AboveMax | BadUrl
    | NotFound | Duplicate | ProbableDuplicate

  /** One entry of mdm_errors; no field ever gets the same code twice. */
  datatype Fault = Fault(field: string, code: Code)

  /** `rules.get("max_length") or attr.length`. */
  function LengthLimit(a: Attribute): Option<int> {
    OrElse(OrElse(a.checks.maxLength, a.length), None)
  }

  function When(c: bool, field: string, code: Code): set<Fault> {
    if c then {Fault(field, code)} else {}
  }

  function TextFaults(p: Platform, a: Attribute, s: string): set<Fault> {
    var limit := LengthLimit(a);
    var least := OrElse(a.checks.minLength, None);
    When(limit.Some? && |s| > limit.value, a.name, MaxLength)
    + When(least.Some? && |s| < least.value, a.name, MinLength)
    + (if !Truthy(a.checks.pattern) then {}
       else match p.matches(a.checks.pattern.value, s)
         case Match => {}
         case NoMatch => {Fault(a.name, Regex)}
         case BadPattern => {Fault(a.name, BadRegex)})
  }

  function NumberOf(p: Platform, v: Value): Option<real> {
    match v
    case Int(i) => Some(i as real)
    case Opaque(_, _, _) => p.number(v)
    case _ => None
  }

  function RangeFaults(p: Platform, a: Attribute, v: Value): set<Fault> {
    var n := NumberOf(p, v);
    if n.None? then
      {}
    else
      When(a.checks.min.Some? && n.value < a.checks.min.value, a.name, BelowMin)
      + When(a.checks.max.Some? && n.value > a.checks.max.value, a.name, AboveMax)
  }

  function ConstraintFaults(p: Platform, a: Attribute, v: Value): set<Fault> {
    if v.Null? then When(a.required, a.name, Required)
    else
      (if v.Text? then TextFaults(p, a, v.s) else {})
      + When(a.checks.allowed != [] && PyText(v) !in a.checks.allowed, a.name, NotAllowed)
      + RangeFaults(p, a, v)
      + When(a.dataType == UrlT && !p.isUrl(PyText(v)), a.name, BadUrl)
  }

  // ---------------------------------------------------------------- records

  datatype Outcome = Outcome(values: Row, faults: set<Fault>)

  /**
   What coercing a default leaves when its error is ignored: a bad e-mail address stays, anything
   else becomes null.
   */
  function CoerceDefault(p: Platform, text: string, t: LogicalType): Value {
    match Coerce(p, Text(text), t)
    case Good(d) => d
    case Bad => if t.EmailT? then Text(Strip(text)) else Null
  }

  /** `attr.default_value` applies only to a column that is absent and has no value of its own. */
  function Defaulted(p: Platform, a: Attribute, v: Value, present: bool): Value {
    if v.Null? && Truthy(a.fallback) && !present then CoerceDefault(p, a.fallback.value, a.dataType) else v
  }

  /** One attribute of the record, after normalisation and coercion. */
  function Read(p: Platform, a: Attribute, payload: Row): Coerced {
    Coerce(p, Normalized(At(payload, a.name), a.rules), a.dataType)
  }

  /** The value stored for the attribute; a value of the wrong type is stored as null. */
  function Stored(p: Platform, a: Attribute, payload: Row): Value {
    match Read(p, a, payload)
    case Bad => Null
    case Good(v) => Defaulted(p, a, v, a.name in payload)
  }

  /** What is wrong with the attribute. */
  function Faults(p: Platform, a: Attribute, payload: Row): set<Fault> {
    if Read(p, a, payload).Bad? then {Fault(a.name, TypeMismatch)}
    else ConstraintFaults(p, a, Stored(p, a, payload))
  }

  /** A partial record says nothing about the columns it leaves out. */
  predicate Looked(a: Attribute, payload: Row, partial: bool) {
    !partial || a.name in payload
  }

  function UnknownFaults(e: Entity, payload: Row): set<Fault> {
    set key | key in payload && key !in Names(e.attributes) && !Reserved(key) :: Fault(key, UnknownField)
  }

  function ValidatedUpTo(e: Entity, payload: Row, partial: bool, n: nat): Outcome
    requires n <= |e.attributes|
  {
    if n == 0 then Outcome(map[], UnknownFaults(e, payload))
    else
      var so := ValidatedUpTo(e, payload, partial, n - 1);
      var a := e.attributes[n - 1];
      if !Looked(a, payload, partial) then so
      else
        Outcome(so.values[a.name := Stored(e.platform, a, payload)], so.faults + Faults(e.platform, a, payload))
  }

  function Validated(e: Entity, payload: Row, partial: bool): Outcome {
    ValidatedUpTo(e, payload, partial, |e.attributes|)
  }

  method ValidateRecord(e: Entity, payload: Row, partial: bool) returns (outcome: Outcome)
    ensures outcome == Validated(e, payload, partial)
  {
    hide Coerce, Defaulted, ConstraintFaults, UnknownFaults, Normalized;
    var coerced: Row := map[];
    var errors := UnknownFaults(e, payload);
    for i := 0 to |e.attributes|
      invariant Outcome(coerced, errors) == ValidatedUpTo(e, payload, partial, i)
    {
      var attr := e.attributes[i];
      if Looked(attr, payload, partial) {
        var raw := NormalizeValue(At(payload, attr.name), attr.rules);
        match Coerce(e.platform, raw, attr.dataType) {
          case Bad =>
            errors := errors + {Fault(attr.name, TypeMismatch)};
            coerced := coerced[attr.name := Null];
          case Good(value) =>
            var stored := Defaulted(e.platform, attr, value, attr.name in payload);
            coerced := coerced[attr.name := stored];
            errors := errors + ConstraintFaults(e.platform, attr, stored);
        }
      }
    }
    return Outcome(coerced, errors);
  }

  // ---------------------------------------------------------------- what the outcome tells

  lemma {:induction false} ValueUpTo(e: Entity, payload: Row, partial: bool, n: nat, i: nat)
    requires WellFormed(e) && i < |e.attributes| && n <= |e.attributes|
    ensures var values, a := ValidatedUpTo(e, payload, partial, n).values, e.attributes[i];
      && (a.name in values <==> i < n && Looked(a, payload, partial))
      && (a.name in values ==> values[a.name] == Stored(e.platform, a, payload))
  {
    hide Stored, Faults, UnknownFaults;
    if n > 0 {
      ValueUpTo(e, payload, partial, n - 1, i);
      assert n - 1 != i ==> e.attributes[n - 1].name != e.attributes[i].name;
    }
  }

  /** The attribute has nothing wrong with it, as far as the record speaks about it. */
  predicate Sound(e: Entity, a: Attribute, payload: Row, partial: bool) {
    Looked(a, payload, partial) ==> Faults(e.platform, a, payload) == {}
  }

  lemma {:induction false} FaultsUpTo(e: Entity, payload: Row, partial: bool, n: nat)
    requires n <= |e.attributes|
    ensures ValidatedUpTo(e, payload, partial, n).values.Keys <= Names(e.attributes)
    ensures ValidatedUpTo(e, payload, partial, n).faults == {}
       <==> UnknownFaults(e, payload) == {} && forall i :: 0 <= i < n ==> Sound(e, e.attributes[i], payload, partial)
  {
    hide Faults, Stored, UnknownFaults;
    if n > 0 {
      FaultsUpTo(e, payload, partial, n - 1);
      var a, before := e.attributes[n - 1], ValidatedUpTo(e, payload, partial, n - 1);
      assert a in e.attributes;
      if Looked(a, payload, partial) {
        var faults := Faults(e.platform, a, payload);
        assert before.faults + faults == {} <==> before.faults == {} && faults == {};
      }
    }
  }

  /** Each column of a validated record holds its own attribute's checked value. */
  lemma ValidatedColumn(e: Entity, payload: Row, partial: bool, a: Attribute)
    requires WellFormed(e) && a in e.attributes
    ensures a.name in Validated(e, payload, partial).values <==> Looked(a, payload, partial)
    ensures Looked(a, payload, partial)
        ==> Validated(e, payload, partial).values[a.name] == Stored(e.platform, a, payload)
  {
    var i :| 0 <= i < |e.attributes| && e.attributes[i] == a;
    ValueUpTo(e, payload, partial, |e.attributes|, i);
  }

  /**
   A record is valid exactly when every attribute it speaks about is, and it names no field
   the entity does not have.
   */
  lemma ValidatedClean(e: Entity, payload: Row, partial: bool)
    ensures Validated(e, payload, partial).values.Keys <= Names(e.attributes)
    ensures Validated(e, payload, partial).faults == {} <==>
            && (forall a :: a in e.attributes ==> Sound(e, a, payload, partial))
            && (forall key :: key in payload ==> key in Names(e.attributes) || Reserved(key))
  {
    FaultsUpTo(e, payload, partial, |e.attributes|);
    if UnknownFaults(e, payload) == {} {
      forall key | key in payload
        ensures key in Names(e.attributes) || Reserved(key)
      {
        assert Fault(key, UnknownField) !in UnknownFaults(e, payload);
      }
    }
  }

  lemma {:induction false} FaultsAre(e: Entity, payload: Row, partial: bool, n: nat)
    requires n <= |e.attributes|
    ensures forall f :: f in ValidatedUpTo(e, payload, partial, n).faults <==>
      || f in UnknownFaults(e, payload)
      || exists i ::
           && 0 <= i < n && Looked(e.attributes[i], payload, partial)
           && f in Faults(e.platform, e.attributes[i], payload)
  {
    hide Faults, Stored, UnknownFaults;
    if n > 0 {
      FaultsAre(e, payload, partial, n - 1);
    }
  }

  /** The errors of a record are those of the attributes it speaks about, and one for each unknown field. */
  lemma ValidatedFaults(e: Entity, payload: Row, partial: bool)
    ensures forall f :: f in Validated(e, payload, partial).faults <==>
      || (f.code == UnknownField && f.field in payload && f.field !in Names(e.attributes) && !("mdm_" <= f.field))
      || exists a :: a in e.attributes && Looked(a, payload, partial) && f in Faults(e.platform, a, payload)
  {
    hide Faults, Stored;
    FaultsAre(e, payload, partial, |e.attributes|);
  }

  // ---------------------------------------------------------------- what is accepted

  /** The configured checks, read as conditions on a value. */
  predicate Obeys(p: Platform, a: Attribute, v: Value) {
    && (v.Null? ==> !a.required)
    && (v.Text? ==>
          && (LengthLimit(a).Some? ==> |v.s| <= LengthLimit(a).value)
          && (OrElse(a.checks.minLength, None).Some? ==> a.checks.minLength.value <= |v.s|)
          && (Truthy(a.checks.pattern) ==> p.matches(a.checks.pattern.value, v.s) == Match))
    && (!v.Null? && a.checks.allowed != [] ==> PyText(v) in a.checks.allowed)
    && (NumberOf(p, v).Some? && a.checks.min.Some? ==> a.checks.min.value <= NumberOf(p, v).value)
    && (NumberOf(p, v).Some? && a.checks.max.Some? ==> NumberOf(p, v).value <= a.checks.max.value)
    && (!v.Null? && a.dataType == UrlT ==> p.isUrl(PyText(v)))
  }

  lemma ObeysIff(p: Platform, a: Attribute, v: Value)
    ensures ConstraintFaults(p, a, v) == {} <==> Obeys(p, a, v)
  {
    hide PyText, LengthLimit;
    if ConstraintFaults(p, a, v) == {} {
      assert Fault(a.name, Required) !in ConstraintFaults(p, a, v);
      assert Fault(a.name, NotAllowed) !in ConstraintFaults(p, a, v);
      assert Fault(a.name, BelowMin) !in ConstraintFaults(p, a, v);
      assert Fault(a.name, AboveMax) !in ConstraintFaults(p, a, v);
      assert Fault(a.name, BadUrl) !in ConstraintFaults(p, a, v);
      if v.Text? {
        assert Fault(a.name, MaxLength) !in TextFaults(p, a, v.s) && Fault(a.name, MinLength) !in TextFaults(p, a, v.s);
        assert Fault(a.name, Regex) !in TextFaults(p, a, v.s) && Fault(a.name, BadRegex) !in TextFaults(p, a, v.s);
      }
    }
  }

  /**
   A record is valid exactly when it names no unknown field and every column it speaks about
   could be read as its type and obeys every configured check.
   */
  lemma ValidIff(e: Entity, payload: Row, partial: bool)
    ensures Validated(e, payload, partial).faults == {} <==>
            && (forall key :: key in payload ==> key in Names(e.attributes) || Reserved(key))
            && (forall a :: a in e.attributes && Looked(a, payload, partial) ==>
                  Read(e.platform, a, payload).Good? && Obeys(e.platform, a, Stored(e.platform, a, payload)))
  {
    hide Read, Stored, Obeys, ConstraintFaults, Validated;
    ValidatedClean(e, payload, partial);
    forall a | a in e.attributes
      ensures Sound(e, a, payload, partial) <==>
        (Looked(a, payload, partial) ==>
            Read(e.platform, a, payload).Good? && Obeys(e.platform, a, Stored(e.platform, a, payload)))
    {
      ObeysIff(e.platform, a, Stored(e.platform, a, payload));
      assert Fault(a.name, TypeMismatch) in {Fault(a.name, TypeMismatch)};
    }
  }

  // ---------------------------------------------------------------- numbers read back

  lemma {:induction false} DecimalDigits(n: nat)
    ensures Decimal(n) != "" && forall i :: 0 <= i < |Decimal(n)| ==> IsDigit(Decimal(n)[i])
  {
    if n >= 10 {
      DecimalDigits(n / 10);
    }
  }

  lemma {:induction false} ParseDecimal(n: nat)
    ensures ParseDigits(Decimal(n)) == Some(n)
  {
    var s, d := Decimal(n), n % 10;
    DecimalDigits(n);
    var last := s[|s| - 1];
    assert last == d as char + '0' && (last - '0') as nat == d;
    if n >= 10 {
      var high := Decimal(n / 10);
      ParseDecimal(n / 10);
      DecimalDigits(n / 10);
      assert s[..|s| - 1] == high && high[|high| - 1] != '_';
      assert n == 10 * (n / 10) + d;
    } else {
      assert s[..0] == "";
    }
  }

  lemma {:induction false} NoCommas(s: string)
    requires forall i :: 0 <= i < |s| ==> s[i] != ','
    ensures WithoutCommas(s) == s
  {
    if s != "" {
      NoCommas(s[1..]);
    }
  }

  /** A whole number written out reads back as itself. */
  lemma ParseWritten(i: int)
    ensures ParseInt(IntText(i)) == Some(i)
  {
    hide ParseDigits, Decimal;
    var s, n: nat := IntText(i), if i < 0 then -i else i;
    DecimalDigits(n);
    ParseDecimal(n);
    NoCommas(s);
    assert StripLeft(s) == s && StripRight(s) == s;
    if i < 0 {
      assert s[1..] == Decimal(n);
    } else {
      assert IsDigit(s[0]);
    }
  }
}
