/**
 Logical types, their rendered PostgreSQL types, and when changing one column type into
 another counts as safe (app/services/identifiers.py and the rendering helpers of
 app/services/ddl.py).
 */
module TypeSystem {
  import opened Common
  import opened Values
  import opened Numbers

  datatype LogicalType =
    | StringT | TextT | IntegerT | BigintT | DecimalT | FloatT | BooleanT
    | DateT | TimestampT | UuidT | JsonT | EmailT | UrlT | EnumT

  /** A column type as PostgreSQL reports it; `Unmapped` is any type the model never creates. */
  datatype PgType =
    | Varchar(n: int)
    | PgText
    | PgInteger
    | PgBigint
    | PgNumeric
    | PgNumericOf(precision: int, scale: int)
    | PgDouble
    | PgBoolean
    | PgDate
    | PgTimestamptz
    | PgUuid
    | PgJsonb
    | Unmapped(name: string)

  const MAX_LENGTH := 10_485_760
  const MAX_INT := 2_147_483_647
  const MAX_BIGINT := 9_223_372_036_854_775_807

  /** Python's `x or d` on an optional number: a missing or zero number is falsy. */
  function OrElse(x: Option<int>, d: Option<int>): Option<int> {
    if x.Some? && x.value != 0 then x else d
  }

  function DefaultLength(t: LogicalType): Option<int> {
    match t
    case EmailT => Some(320)
    case EnumT => Some(100)
    case _ => None
  }

  predicate Sized(t: LogicalType) {
    t in {StringT, EmailT, EnumT}
  }

  /** The rendered column type of an attribute; an impossible length is refused. */
  function PgTypeOf(t: LogicalType, length: Option<int>, precision: Option<int>, scale: Option<int>): Option<PgType> {
    match t
    case DecimalT =>
      Some(if precision.Some? && precision.value != 0
           then PgNumericOf(precision.value, OrElse(scale, Some(0)).value) else PgNumeric)
    case StringT | EmailT | EnumT =>
      var size := OrElse(length, DefaultLength(t));
      if size.None? then Some(PgText)
      else if 1 <= size.value <= MAX_LENGTH then Some(Varchar(size.value))
      else None
    case TextT | UrlT => Some(PgText)
    case IntegerT => Some(PgInteger)
    case BigintT => Some(PgBigint)
    case FloatT => Some(PgDouble)
    case BooleanT => Some(PgBoolean)
    case DateT => Some(PgDate)
    case TimestampT => Some(PgTimestamptz)
    case UuidT => Some(PgUuid)
    case JsonT => Some(PgJsonb)
  }

  /** The largest whole number a number column holds as it is; None is no limit. */
  function Highest(t: PgType): Option<int> {
    match t
    case PgInteger => Some(MAX_INT)
    case PgBigint => Some(MAX_BIGINT)
    case PgDouble => Some(MAX_DOUBLE)
    case PgNumericOf(p, s) => Some(if p > 0 && p > s then Pow10(p - s) - Unit(t) else 0)
    case _ => None
  }

  function Lowest(t: PgType): Option<int> {
    match t
    case PgInteger => Some(-MAX_INT - 1)
    case PgBigint => Some(-MAX_BIGINT - 1)
    case _ => if Highest(t).Some? then Some(-Highest(t).value) else None
  }

  /** A negative scale rounds to tens, hundreds and so on: only their multiples are stored as they are. */
  function Unit(t: PgType): (u: int)
    ensures u >= 1
  {
    if t.PgNumericOf? && t.scale < 0 then Pow10(-t.scale) else 1
  }

  predicate Within(i: int, t: PgType) {
    && (Highest(t).Some? ==> i <= Highest(t).value)
    && (Lowest(t).Some? ==> Lowest(t).value <= i)
    && i % Unit(t) == 0
    && (t.PgDouble? ==> Exact(i))
  }

  /** Whether PostgreSQL stores the value in a column of the type as it is. */
  predicate Fits(v: Value, t: PgType) {
    && (v.Text? && t.Varchar? ==> |v.s| <= t.n)
    && (v.Int? ==> Within(v.i, t))
  }

  // ---------------------------------------------------------------- reflection

  /** The logical type a deployed column is read back as; None for a type outside the map. */
  function LogicalOf(t: PgType): Option<LogicalType> {
    match t
    case Varchar(_) => Some(StringT)
    case PgText => Some(TextT)
    case PgInteger => Some(IntegerT)
    case PgBigint => Some(BigintT)
    case PgNumeric => Some(DecimalT)
    case PgNumericOf(_, _) => Some(DecimalT)
    case PgDouble => Some(FloatT)
    case PgBoolean => Some(BooleanT)
    case PgDate => Some(DateT)
    case PgTimestamptz => Some(TimestampT)
    case PgUuid => Some(UuidT)
    case PgJsonb => Some(JsonT)
    case Unmapped(_) => None
  }

  /** character_maximum_length. */
  function LengthOf(t: PgType): Option<int> {
    if t.Varchar? then Some(t.n) else None
  }

  // ---------------------------------------------------------------- widening

  datatype Family = TextFamily | NumberFamily | BoolFamily | TimeFamily | UuidFamily | JsonFamily

  function FamilyOf(t: LogicalType): Family {
    match t
    case StringT | TextT | EmailT | UrlT | EnumT => TextFamily
    case IntegerT | BigintT | DecimalT | FloatT => NumberFamily
    case BooleanT => BoolFamily
    case DateT | TimestampT => TimeFamily
    case UuidT => UuidFamily
    case JsonT => JsonFamily
  }

  function RankOf(t: LogicalType): nat {
    match t
    case TextT | UrlT | BigintT | TimestampT => 2
    case DecimalT => 3
    case FloatT => 4
    case _ => 1
  }

  function LengthOrZero(l: Option<int>): int {
    if l.Some? then l.value else 0
  }

  /** When the migration planner takes a type change for harmless. */
  predicate SafeWidening(oldType: LogicalType, oldLength: Option<int>, newType: LogicalType, newLength: Option<int>) {
    var olen, nlen := LengthOrZero(oldLength), LengthOrZero(newLength);
    && FamilyOf(oldType) == FamilyOf(newType)
    && RankOf(oldType) <= RankOf(newType)
    && (FamilyOf(oldType) == TextFamily && RankOf(oldType) == RankOf(newType) ==>
        nlen == 0 || (olen != 0 && nlen >= olen))
  }

  /** What a column of a type may become without a report, as far as the types go. */
  function MayBecome(t: LogicalType): set<LogicalType> {
    match t
    case StringT | EmailT | EnumT => {StringT, EmailT, EnumT, TextT, UrlT}
    case TextT | UrlT => {TextT, UrlT}
    case IntegerT => {IntegerT, BigintT, DecimalT, FloatT}
    case BigintT => {BigintT, DecimalT, FloatT}
    case DecimalT => {DecimalT, FloatT}
    case FloatT => {FloatT}
    case DateT => {DateT, TimestampT}
    case TimestampT => {TimestampT}
    case BooleanT => {BooleanT}
    case UuidT => {UuidT}
    case JsonT => {JsonT}
  }

  /** A length that is no shorter; none, or zero, is no limit. */
  predicate NoShorter(oldLength: Option<int>, newLength: Option<int>) {
    || newLength.None? || newLength.value == 0
    || (oldLength.Some? && oldLength.value != 0 && oldLength.value <= newLength.value)
  }

  /** The accepted changes, pair by pair: lengths count between sized texts and between unsized ones. */
  lemma SafeWideningMeans(a: LogicalType, k: Option<int>, b: LogicalType, l: Option<int>)
    ensures SafeWidening(a, k, b, l) <==>
      b in MayBecome(a)
      && ({a, b} <= {StringT, EmailT, EnumT} || {a, b} <= {TextT, UrlT} ==> NoShorter(k, l))
  {
  }

  /**
   A rendered type is read back as the type it was rendered for, with its length; only email and enum
   read back as string, and url as text, as does a string without a length.
   */
  lemma RenderedReadsBack(t: LogicalType, length: Option<int>, precision: Option<int>, scale: Option<int>)
    ensures var pg := PgTypeOf(t, length, precision, scale);
      && (pg.None? <==> t in {StringT, EmailT, EnumT} && length.Some? && !(0 <= length.value <= 10_485_760))
      && (pg.Some? && t !in {StringT, EmailT, UrlT, EnumT} ==> LogicalOf(pg.value) == Some(t))
      && (pg.Some? && t in {StringT, EmailT, EnumT} ==>
            var unsized := length.None? || length.value == 0;
            if t == StringT && unsized then LogicalOf(pg.value) == Some(TextT) && LengthOf(pg.value) == None
            else && LogicalOf(pg.value) == Some(StringT)
                 && LengthOf(pg.value) == if !unsized then length else if t == EmailT then Some(320) else Some(100))
      && (t == UrlT ==> pg == PgTypeOf(TextT, length, precision, scale) && LogicalOf(pg.value) == Some(TextT))
      && (t == DecimalT ==> (pg == Some(PgNumeric) <==> precision.None? || precision.value == 0))
      && (t == DecimalT && pg != Some(PgNumeric) ==>
            pg.value == PgNumericOf(precision.value, if scale.Some? then scale.value else 0))
  {
  }

  /** Safe widening is a preorder, so accepted changes compose. */
  lemma SafeWideningPreorder(a: LogicalType, k: Option<int>, b: LogicalType, l: Option<int>, c: LogicalType,
                             m: Option<int>)
    ensures SafeWidening(a, k, a, k)
    ensures SafeWidening(a, k, b, l) && SafeWidening(b, l, c, m) ==> SafeWidening(a, k, c, m)
  {
    hide FamilyOf, RankOf;
  }

  /** An email or enum without a length of its own gets the type's default, which the planner does not look at. */
  predicate DefaultCutsOff(was: PgType, newType: LogicalType, newLength: Option<int>) {
    && was.Varchar? && LengthOrZero(newLength) == 0
    && DefaultLength(newType).Some? && DefaultLength(newType).value < was.n
  }

  function Spaces(n: nat): (s: string)
    ensures |s| == n
  {
    if n == 0 then "" else " " + Spaces(n - 1)
  }

  /**
   A change of column type that the planner accepts keeps every stored text storable, exactly
   when the new type's default length does not cut the column off.
   */
  lemma SafeTextChange(was: PgType, t: LogicalType, length: Option<int>, precision: Option<int>, scale: Option<int>)
    requires LogicalOf(was).Some? && (was.Varchar? ==> was.n >= 1)
    requires SafeWidening(LogicalOf(was).value, LengthOf(was), t, length) && PgTypeOf(t, length, precision, scale).Some?
    ensures (forall s :: Fits(Text(s), was) ==> Fits(Text(s), PgTypeOf(t, length, precision, scale).value))
       <==> !DefaultCutsOff(was, t, length)
  {
    if DefaultCutsOff(was, t, length) {
      assert Fits(Text(Spaces(was.n)), was);
    }
  }

  /** A double holds every whole number of the type: none of them has a significand over 53 bits. */
  predicate DoubleHolds(t: PgType) {
    match t
    case PgDouble => true
    case PgInteger => true
    case PgNumericOf(p, s) =>
      p <= 0 || p <= s || (if s < 0 then (Pow10(p) - 1) * Pow5(-s) else Pow10(p - s) - 1) < SIGNIFICANDS
    case _ => false
  }

  /** The new type's whole numbers do not include all of the old one's. */
  predicate Narrower(was: PgType, now: PgType) {
    if now.PgDouble? then !DoubleHolds(was)
    else
      || (Highest(now).Some? && (Highest(was).None? || Highest(now).value < Highest(was).value))
      || (Lowest(now).Some? && (Lowest(was).None? || Lowest(was).value < Lowest(now).value))
      || (Highest(was) != Some(0) && Unit(was) % Unit(now) != 0)
  }

  /** A number column holds its own extremes, and its unit if it holds anything but zero. */
  lemma ExtremesFit(t: PgType)
    ensures Highest(t).Some? ==> Within(Highest(t).value, t) && Within(Lowest(t).value, t)
    ensures Highest(t) != Some(0) ==> Within(Unit(t), t)
  {
    hide Pow10, Exact;
    if t.PgNumericOf? && t.precision > 0 && t.precision > t.scale {
      var p, s := t.precision, t.scale;
      if s < 0 {
        Pow10Sum(p, -s);
        Pow10Tens(p);
        assert p + -s == p - s;
        RangeOf(Pow10(p), Pow10(-s));
      } else {
        Pow10Tens(p - s);
      }
    } else if t.PgDouble? {
      ExtremesExact();
    }
  }

  lemma Limits(t: PgType)
    ensures Highest(t).Some? <==> Lowest(t).Some?
    ensures Highest(t).None? ==> Unit(t) == 1
  {
  }

  /** A whole number that a type other than double loses. */
  lemma LostNumber(was: PgType, now: PgType) returns (i: int)
    requires Narrower(was, now) && !now.PgDouble?
    ensures Within(i, was) && !Within(i, now)
  {
    hide Pow10, Highest, Lowest, Unit, Exact;
    Limits(was);
    Limits(now);
    ExtremesFit(was);
    if Highest(was).None? {
      DoubleLimited(was);
      return if Highest(now).Some? then Highest(now).value + 1 else 1;
    } else if !Within(Highest(was).value, now) {
      return Highest(was).value;
    } else if !Within(Lowest(was).value, now) {
      return Lowest(was).value;
    }
    return Unit(was);
  }

  lemma DoubleLimited(t: PgType)
    ensures t.PgDouble? ==> Highest(t) == Some(MAX_DOUBLE) && Unit(t) == 1
  {
  }

  /** A whole number that a double does not hold exactly. */
  lemma InexactNumber(was: PgType) returns (i: int)
    requires !DoubleHolds(was)
    ensures Within(i, was) && !Exact(i)
  {
    hide Exact, Pow10, Pow5;
    if was.PgNumericOf? {
      var p, s := was.precision, was.scale;
      ExtremesFit(was);
      if s < 0 {
        Pow10Sum(p, -s);
        assert p + -s == p - s;
        ScaledInexact(p, -s);
        return Pow10(p - s) - Pow10(-s);
      }
      NinesOdd(p - s);
      OddInexact(Pow10(p - s) - 1);
      return Pow10(p - s) - 1;
    }
    OddInexact(SIGNIFICANDS + 1);
    return SIGNIFICANDS + 1;
  }

  lemma ExactHeld(was: PgType, i: int)
    requires DoubleHolds(was) && Within(i, was)
    ensures Within(i, PgDouble)
  {
    hide Exact, Pow10, Pow5;
    if was.PgNumericOf? && was.precision > 0 && was.precision > was.scale {
      var p, s := was.precision, was.scale;
      if s < 0 {
        Pow10Sum(p, -s);
        assert p + -s == p - s;
        ScaledExact(i, p, -s);
      } else {
        SmallExact(i);
      }
    } else if !was.PgDouble? {
      SmallExact(i);
    }
    ExactBounded(i);
    DoubleLimited(PgDouble);
  }

  /**
   Changing a number column keeps every whole number exactly when the new type's range contains
   the old one's and its unit divides the old one's or, for a double, when no significand is too
   long. The planner looks at none of this.
   */
  lemma NumbersKept(was: PgType, now: PgType)
    ensures (forall i :: Within(i, was) ==> Within(i, now)) <==> !Narrower(was, now)
  {
    hide Within, Narrower, DoubleHolds;
    if Narrower(was, now) {
      var lost := Lost(was, now);
    } else {
      forall i | Within(i, was) ensures Within(i, now) {
        Kept(was, now, i);
      }
    }
  }

  lemma Lost(was: PgType, now: PgType) returns (i: int)
    requires Narrower(was, now)
    ensures Within(i, was) && !Within(i, now)
  {
    hide Highest, Lowest, Unit, DoubleHolds, Exact;
    if now.PgDouble? {
      i := InexactNumber(was);
    } else {
      i := LostNumber(was, now);
    }
  }

  lemma Kept(was: PgType, now: PgType, i: int)
    requires !Narrower(was, now) && Within(i, was)
    ensures Within(i, now)
  {
    hide Highest, Lowest, Unit, DoubleHolds, Exact;
    if now.PgDouble? {
      ExactHeld(was, i);
    } else {
      RangeKept(was, now, i);
    }
  }

  lemma RangeKept(was: PgType, now: PgType, i: int)
    requires !Narrower(was, now) && !now.PgDouble? && Within(i, was)
    ensures Within(i, now)
  {
    hide Pow10, Exact;
    if Highest(was) == Some(0) {
      assert i == 0;
    } else {
      UnitsDivide(i, Unit(was), Unit(now));
    }
  }

  /** What the planner does not look at: default lengths, and the range of numbers. */
  predicate Loses(was: PgType, t: LogicalType, length: Option<int>, now: PgType) {
    DefaultCutsOff(was, t, length) || Narrower(was, now)
  }

  /**
   A change of column type that the planner accepts keeps every stored text and whole number exactly
   when no default length cuts the column off and no number range narrows.
   */
  lemma SafeChangeKeeps(was: PgType, t: LogicalType, length: Option<int>, precision: Option<int>, scale: Option<int>)
    requires LogicalOf(was).Some? && (was.Varchar? ==> was.n >= 1)
    requires SafeWidening(LogicalOf(was).value, LengthOf(was), t, length) && PgTypeOf(t, length, precision, scale).Some?
    ensures var now := PgTypeOf(t, length, precision, scale).value;
      (forall v :: Fits(v, was) ==> Fits(v, now)) <==> !Loses(was, t, length, now)
  {
    hide Within, Narrower, Fits, DoubleHolds;
    var now := PgTypeOf(t, length, precision, scale).value;
    NumbersKept(was, now);
    FitsIff(was, now);
    SafeTextChange(was, t, length, precision, scale);
  }

  /** Everything that fits one type fits another exactly when every text and every whole number does. */
  lemma FitsIff(was: PgType, now: PgType)
    ensures (forall v :: Fits(v, was) ==> Fits(v, now))
       <==> (forall s :: Fits(Text(s), was) ==> Fits(Text(s), now)) && (forall i :: Within(i, was) ==> Within(i, now))
  {
    hide Within;
    if forall v :: Fits(v, was) ==> Fits(v, now) {
      assert forall i :: Within(i, was) ==> Fits(Int(i), was) && Fits(Int(i), now);
    }
  }

  /** No default length, no sized decimal and no float: a type whose accepted changes lose nothing. */
  predicate Plain(t: LogicalType, length: Option<int>, precision: Option<int>) {
    match t
    case EmailT | EnumT => length.Some? && length.value != 0
    case DecimalT => precision.None? || precision.value == 0
    case FloatT => false
    case _ => true
  }

  /** Between plain types the planner is right: what it accepts loses nothing. */
  lemma PlainChangeKeeps(was: PgType, t: LogicalType, length: Option<int>, precision: Option<int>, scale: Option<int>)
    requires LogicalOf(was).Some? && Plain(t, length, precision)
    requires SafeWidening(LogicalOf(was).value, LengthOf(was), t, length) && PgTypeOf(t, length, precision, scale).Some?
    ensures !Loses(was, t, length, PgTypeOf(t, length, precision, scale).value)
  {
    hide Narrower;
    PlainNumbersKept(was, t, length, precision, scale);
  }

  lemma PlainNumbersKept(was: PgType, t: LogicalType, length: Option<int>, precision: Option<int>, scale: Option<int>)
    requires LogicalOf(was).Some? && Plain(t, length, precision)
    requires SafeWidening(LogicalOf(was).value, LengthOf(was), t, length) && PgTypeOf(t, length, precision, scale).Some?
    ensures !Narrower(was, PgTypeOf(t, length, precision, scale).value)
  {
    hide Pow10, Pow5, Exact, DoubleHolds, LengthOf;
    var now := PgTypeOf(t, length, precision, scale).value;
    if now.PgInteger? || now.PgBigint? {
      assert was.PgInteger? || was.PgBigint?;
    } else {
      assert Highest(now).None? && Unit(now) == 1;
    }
  }

  /** Sized decimals and floats count as wider than a bigint, and are not. */
  lemma NotReallyWider()
    ensures SafeWidening(BigintT, None, FloatT, None)
    ensures Fits(Int(SIGNIFICANDS + 1), PgBigint) && !Fits(Int(SIGNIFICANDS + 1), PgDouble)
    ensures SafeWidening(BigintT, None, DecimalT, None)
    ensures PgTypeOf(DecimalT, None, Some(3), None) == Some(PgNumericOf(3, 0))
    ensures Fits(Int(1000), PgBigint) && !Fits(Int(1000), PgNumericOf(3, 0))
  {
    hide Exact;
    OddInexact(SIGNIFICANDS + 1);
    assert Pow10(3) == 10 * Pow10(2) && Pow10(2) == 10 * Pow10(1) && Pow10(1) == 10 * Pow10(0);
  }
}
