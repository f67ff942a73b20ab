/**
 * `ScalarValue`: a dynamically typed, nullable single value, with its value
 * semantics (equality, partial ordering, null test, type), the decimal and
 * typed-null constructors, arithmetic negation, the conversions to and from
 * native values, and the `Display` rendering.
 */
module Scalar {

  import opened DFErrors
  import opened ArrowTypes

  /** The optional vector of nested values that List and Struct carry
      (`Option<Box<Vec<ScalarValue>>>`). A dedicated datatype rather than
      `Option<seq<ScalarValue>>`, so that recursion into the elements is
      well-founded. */
  datatype Nested = NullNested | Elems(items: seq<ScalarValue>)

  datatype ScalarValue =
    | Null
    | Boolean(boolValue: Option<bool>)
    | Float32(f32Value: Option<F32Bits>)
    | Float64(f64Value: Option<F64Bits>)
    | Decimal128(decValue: Option<I128>, precision: Usize, scale: Usize)
    | Int8(i8Value: Option<I8>)
    | Int16(i16Value: Option<I16>)
    | Int32(i32Value: Option<I32>)
    | Int64(i64Value: Option<I64>)
    | UInt8(u8Value: Option<U8>)
    | UInt16(u16Value: Option<U16>)
    | UInt32(u32Value: Option<U32>)
    | UInt64(u64Value: Option<U64>)
    | Utf8(strValue: Option<string>)
    | LargeUtf8(strValue: Option<string>)
    | Binary(bytesValue: Option<seq<U8>>)
    | LargeBinary(bytesValue: Option<seq<U8>>)
    | List(listValues: Nested, elemType: DataType)
    | Date32(i32Value: Option<I32>)
    | Date64(i64Value: Option<I64>)
    | TimestampSecond(i64Value: Option<I64>, tz: Option<string>)
    | TimestampMillisecond(i64Value: Option<I64>, tz: Option<string>)
    | TimestampMicrosecond(i64Value: Option<I64>, tz: Option<string>)
    | TimestampNanosecond(i64Value: Option<I64>, tz: Option<string>)
    | IntervalYearMonth(i32Value: Option<I32>)
    | IntervalDayTime(i64Value: Option<I64>)
    | IntervalMonthDayNano(i128Value: Option<I128>)
    | Struct(structValues: Nested, fields: seq<Field>)

  /** The position of a value's variant in the enum declaration. */
  function Variant(v: ScalarValue): (k: nat)
    ensures k < 28
  {
    match v
    case Null => 0
    case Boolean(_) => 1
    case Float32(_) => 2
    case Float64(_) => 3
    case Decimal128(_, _, _) => 4
    case Int8(_) => 5
    case Int16(_) => 6
    case Int32(_) => 7
    case Int64(_) => 8
    case UInt8(_) => 9
    case UInt16(_) => 10
    case UInt32(_) => 11
    case UInt64(_) => 12
    case Utf8(_) => 13
    case LargeUtf8(_) => 14
    case Binary(_) => 15
    case LargeBinary(_) => 16
    case List(_, _) => 17
    case Date32(_) => 18
    case Date64(_) => 19
    case TimestampSecond(_, _) => 20
    case TimestampMillisecond(_, _) => 21
    case TimestampMicrosecond(_, _) => 22
    case TimestampNanosecond(_, _) => 23
    case IntervalYearMonth(_) => 24
    case IntervalDayTime(_) => 25
    case IntervalMonthDayNano(_) => 26
    case Struct(_, _) => 27
  }

  // ---------------------------------------------------------------------
  // OrderedFloat semantics on IEEE-754 bit patterns

  datatype FloatFormat = Single | Double

  /** The sign bit of the format. */
  function SignBit(f: FloatFormat): nat
  {
    match f
    case Single => 0x8000_0000
    case Double => 0x8000_0000_0000_0000
  }

  /** The bit pattern of positive infinity; larger magnitudes are NaN. */
  function InfinityBits(f: FloatFormat): nat
  {
    match f
    case Single => 0x7F80_0000
    case Double => 0x7FF0_0000_0000_0000
  }

  function Magnitude(bits: int, f: FloatFormat): nat
  {
    bits % SignBit(f)
  }

  predicate IsNaN(bits: int, f: FloatFormat)
  {
    Magnitude(bits, f) > InfinityBits(f)
  }

  /** A number whose integer order is the order of `OrderedFloat`: every
      NaN above every other value, -0 and +0 together, negatives mirrored. */
  function OrderKey(bits: int, f: FloatFormat): (k: int)
    ensures IsNaN(bits, f) <==> k == InfinityBits(f) + 1
    ensures -(InfinityBits(f) as int) <= k <= InfinityBits(f) + 1
  {
    if IsNaN(bits, f) then InfinityBits(f) + 1
    else if bits >= SignBit(f) then -(Magnitude(bits, f) as int)
    else Magnitude(bits, f)
  }

  /** `OrderedFloat::eq`: NaN equals NaN; otherwise IEEE equality, under
      which -0 equals +0. */
  predicate OrderedFloatEq(a: int, b: int, f: FloatFormat)
  {
    if IsNaN(a, f) then IsNaN(b, f)
    else !IsNaN(b, f) && OrderKey(a, f) == OrderKey(b, f)
  }

  datatype Ordering = Less | Equal | Greater

  function CmpInt(x: int, y: int): (o: Ordering)
    ensures o == Equal <==> x == y
    ensures o == Less <==> x < y
  {
    if x < y then Less else if x == y then Equal else Greater
  }

  function OrderedFloatCmp(a: int, b: int, f: FloatFormat): Ordering
  {
    CmpInt(OrderKey(a, f), OrderKey(b, f))
  }

  // ---------------------------------------------------------------------
  // Equality (`PartialEq for ScalarValue`)

  predicate OptFloatEq(a: Option<int>, b: Option<int>, f: FloatFormat)
  {
    match a
    case None => b.None?
    case Some(x) => b.Some? && OrderedFloatEq(x, b.value, f)
  }

  /** `ScalarValue::eq`. Values of different variants are unequal; time
      zones of timestamps are ignored; nested values compare element-wise. */
  predicate Eq(a: ScalarValue, b: ScalarValue)
    decreases a, 1
  {
    match a
    case Decimal128(v, p, s) => b.Decimal128? && v == b.decValue && p == b.precision && s == b.scale
    case Boolean(v) => b.Boolean? && v == b.boolValue
    case Float32(v) => b.Float32? && OptFloatEq(v, b.f32Value, Single)
    case Float64(v) => b.Float64? && OptFloatEq(v, b.f64Value, Double)
    case Int8(v) => b.Int8? && v == b.i8Value
    case Int16(v) => b.Int16? && v == b.i16Value
    case Int32(v) => b.Int32? && v == b.i32Value
    case Int64(v) => b.Int64? && v == b.i64Value
    case UInt8(v) => b.UInt8? && v == b.u8Value
    case UInt16(v) => b.UInt16? && v == b.u16Value
    case UInt32(v) => b.UInt32? && v == b.u32Value
    case UInt64(v) => b.UInt64? && v == b.u64Value
    case Utf8(v) => b.Utf8? && v == b.strValue
    case LargeUtf8(v) => b.LargeUtf8? && v == b.strValue
    case Binary(v) => b.Binary? && v == b.bytesValue
    case LargeBinary(v) => b.LargeBinary? && v == b.bytesValue
    case List(v, t) => b.List? && NestedEq(v, b.listValues) && t == b.elemType
    case Date32(v) => b.Date32? && v == b.i32Value
    case Date64(v) => b.Date64? && v == b.i64Value
    case TimestampSecond(v, _) => b.TimestampSecond? && v == b.i64Value
    case TimestampMillisecond(v, _) => b.TimestampMillisecond? && v == b.i64Value
    case TimestampMicrosecond(v, _) => b.TimestampMicrosecond? && v == b.i64Value
    case TimestampNanosecond(v, _) => b.TimestampNanosecond? && v == b.i64Value
    case IntervalYearMonth(v) => b.IntervalYearMonth? && v == b.i32Value
    case IntervalDayTime(v) => b.IntervalDayTime? && v == b.i64Value
    case IntervalMonthDayNano(v) => b.IntervalMonthDayNano? && v == b.i128Value
    case Struct(v, t) => b.Struct? && NestedEq(v, b.structValues) && t == b.fields
    case Null => b.Null?
  }

  /** `Option<Box<Vec<ScalarValue>>>::eq`. */
  predicate NestedEq(v: Nested, w: Nested)
    decreases v, 0
  {
    match v
    case NullNested => w.NullNested?
    case Elems(xs) => w.Elems? && SeqEq(xs, w.items)
  }

  /** `Vec<ScalarValue>::eq`: same length and element-wise `Eq`. */
  predicate SeqEq(xs: seq<ScalarValue>, ys: seq<ScalarValue>)
    decreases xs
  {
    if xs == [] then ys == []
    else ys != [] && Eq(xs[0], ys[0]) && SeqEq(xs[1..], ys[1..])
  }

  // ---------------------------------------------------------------------
  // Partial ordering (`PartialOrd for ScalarValue`)

  /** `Option<T>::partial_cmp` for a totally ordered payload: None first. */
  function CmpOptInt(x: Option<int>, y: Option<int>): Ordering
  {
    match (x, y)
    case (None, None) => Equal
    case (None, Some(_)) => Less
    case (Some(_), None) => Greater
    case (Some(a), Some(b)) => CmpInt(a, b)
  }

  function BoolRank(b: bool): int { if b then 1 else 0 }

  function OptBoolAsInt(v: Option<bool>): Option<int>
  {
    match v
    case None => None
    case Some(b) => Some(BoolRank(b))
  }

  function CmpOptFloat(x: Option<int>, y: Option<int>, f: FloatFormat): Ordering
  {
    match (x, y)
    case (None, None) => Equal
    case (None, Some(_)) => Less
    case (Some(_), None) => Greater
    case (Some(a), Some(b)) => OrderedFloatCmp(a, b, f)
  }

  /** Lexicographic order of strings (byte order of UTF-8 is code-point order). */
  function CmpChars(xs: string, ys: string): Ordering
    decreases |xs|
  {
    if xs == [] || ys == [] then CmpInt(|xs|, |ys|)
    else if xs[0] < ys[0] then Less
    else if xs[0] > ys[0] then Greater
    else CmpChars(xs[1..], ys[1..])
  }

  function CmpBytes(xs: seq<U8>, ys: seq<U8>): Ordering
    decreases |xs|
  {
    if xs == [] || ys == [] then CmpInt(|xs|, |ys|)
    else if xs[0] != ys[0] then CmpInt(xs[0], ys[0])
    else CmpBytes(xs[1..], ys[1..])
  }

  function CmpOptString(x: Option<string>, y: Option<string>): Ordering
  {
    match (x, y)
    case (None, None) => Equal
    case (None, Some(_)) => Less
    case (Some(_), None) => Greater
    case (Some(a), Some(b)) => CmpChars(a, b)
  }

  function CmpOptBytes(x: Option<seq<U8>>, y: Option<seq<U8>>): Ordering
  {
    match (x, y)
    case (None, None) => Equal
    case (None, Some(_)) => Less
    case (Some(_), None) => Greater
    case (Some(a), Some(b)) => CmpBytes(a, b)
  }

  /** `ScalarValue::partial_cmp`. */
  function PartialCmp(a: ScalarValue, b: ScalarValue): Option<Ordering>
    decreases a, 1
  {
    match a
    case Decimal128(v, p, s) =>
      if b.Decimal128? then
        if p == b.precision && s == b.scale then Some(CmpOptInt(v, b.decValue))
        else None
      else None
    case Boolean(v) => if b.Boolean? then Some(CmpOptInt(OptBoolAsInt(v), OptBoolAsInt(b.boolValue))) else None
    case Float32(v) => if b.Float32? then Some(CmpOptFloat(v, b.f32Value, Single)) else None
    case Float64(v) => if b.Float64? then Some(CmpOptFloat(v, b.f64Value, Double)) else None
    case Int8(v) => if b.Int8? then Some(CmpOptInt(v, b.i8Value)) else None
    case Int16(v) => if b.Int16? then Some(CmpOptInt(v, b.i16Value)) else None
    case Int32(v) => if b.Int32? then Some(CmpOptInt(v, b.i32Value)) else None
    case Int64(v) => if b.Int64? then Some(CmpOptInt(v, b.i64Value)) else None
    case UInt8(v) => if b.UInt8? then Some(CmpOptInt(v, b.u8Value)) else None
    case UInt16(v) => if b.UInt16? then Some(CmpOptInt(v, b.u16Value)) else None
    case UInt32(v) => if b.UInt32? then Some(CmpOptInt(v, b.u32Value)) else None
    case UInt64(v) => if b.UInt64? then Some(CmpOptInt(v, b.u64Value)) else None
    case Utf8(v) => if b.Utf8? then Some(CmpOptString(v, b.strValue)) else None
    case LargeUtf8(v) => if b.LargeUtf8? then Some(CmpOptString(v, b.strValue)) else None
    case Binary(v) => if b.Binary? then Some(CmpOptBytes(v, b.bytesValue)) else None
    case LargeBinary(v) => if b.LargeBinary? then Some(CmpOptBytes(v, b.bytesValue)) else None
    case List(v, t) => if b.List? && t == b.elemType then NestedCmp(v, b.listValues) else None
    case Date32(v) => if b.Date32? then Some(CmpOptInt(v, b.i32Value)) else None
    case Date64(v) => if b.Date64? then Some(CmpOptInt(v, b.i64Value)) else None
    case TimestampSecond(v, _) => if b.TimestampSecond? then Some(CmpOptInt(v, b.i64Value)) else None
    case TimestampMillisecond(v, _) => if b.TimestampMillisecond? then Some(CmpOptInt(v, b.i64Value)) else None
    case TimestampMicrosecond(v, _) => if b.TimestampMicrosecond? then Some(CmpOptInt(v, b.i64Value)) else None
    case TimestampNanosecond(v, _) => if b.TimestampNanosecond? then Some(CmpOptInt(v, b.i64Value)) else None
    case IntervalYearMonth(v) => if b.IntervalYearMonth? then Some(CmpOptInt(v, b.i32Value)) else None
    case IntervalDayTime(v) => if b.IntervalDayTime? then Some(CmpOptInt(v, b.i64Value)) else None
    case IntervalMonthDayNano(v) => if b.IntervalMonthDayNano? then Some(CmpOptInt(v, b.i128Value)) else None
    case Struct(v, t) => if b.Struct? && t == b.fields then NestedCmp(v, b.structValues) else None
    case Null => if b.Null? then Some(Equal) else None
  }

  /** `Option<Box<Vec<ScalarValue>>>::partial_cmp`: None first, then the
      lexicographic order of the vectors. */
  function NestedCmp(v: Nested, w: Nested): Option<Ordering>
    decreases v, 0
  {
    match v
    case NullNested => if w.NullNested? then Some(Equal) else Some(Less)
    case Elems(xs) => if w.NullNested? then Some(Greater) else LexCmp(xs, w.items)
  }

  /** `[ScalarValue]::partial_cmp`: the first element pair that is not
      `Some(Equal)` decides; otherwise the lengths do. */
  function LexCmp(xs: seq<ScalarValue>, ys: seq<ScalarValue>): Option<Ordering>
    decreases xs
  {
    if xs == [] || ys == [] then Some(CmpInt(|xs|, |ys|))
    else
      var c := PartialCmp(xs[0], ys[0]);
      if c == Some(Equal) then LexCmp(xs[1..], ys[1..]) else c
  }

  // ---------------------------------------------------------------------
  // Constructors, type and null test

  /** `ScalarValue::try_new_decimal128`. */
  function TryNewDecimal128(value: I128, precision: Usize, scale: Usize): (r: Result<ScalarValue>)
    ensures r.Ok? <==> precision <= DECIMAL_MAX_PRECISION && scale <= precision
    ensures r.Ok? ==> r.value == Decimal128(Some(value), precision, scale)
    ensures r.Err? ==> r.error.Internal?
  {
    if precision <= DECIMAL_MAX_PRECISION && scale <= precision then
      Ok(Decimal128(Some(value), precision, scale))
    else
      Err(Internal("Can not new a decimal type ScalarValue for precision " + NatToString(precision)
                   + " and scale " + NatToString(scale)))
  }

  /** `ScalarValue::get_datatype`. */
  function GetDataType(v: ScalarValue): DataType
  {
    match v
    case Boolean(_) => DataType.Boolean
    case UInt8(_) => DataType.UInt8
    case UInt16(_) => DataType.UInt16
    case UInt32(_) => DataType.UInt32
    case UInt64(_) => DataType.UInt64
    case Int8(_) => DataType.Int8
    case Int16(_) => DataType.Int16
    case Int32(_) => DataType.Int32
    case Int64(_) => DataType.Int64
    case Decimal128(_, p, s) => DataType.Decimal(p, s)
    case TimestampSecond(_, tz) => DataType.Timestamp(Second, tz)
    case TimestampMillisecond(_, tz) => DataType.Timestamp(Millisecond, tz)
    case TimestampMicrosecond(_, tz) => DataType.Timestamp(Microsecond, tz)
    case TimestampNanosecond(_, tz) => DataType.Timestamp(Nanosecond, tz)
    case Float32(_) => DataType.Float32
    case Float64(_) => DataType.Float64
    case Utf8(_) => DataType.Utf8
    case LargeUtf8(_) => DataType.LargeUtf8
    case Binary(_) => DataType.Binary
    case LargeBinary(_) => DataType.LargeBinary
    case List(_, t) => DataType.List(Field("item", t, true))
    case Date32(_) => DataType.Date32
    case Date64(_) => DataType.Date64
    case IntervalYearMonth(_) => DataType.Interval(YearMonth)
    case IntervalDayTime(_) => DataType.Interval(DayTime)
    case IntervalMonthDayNano(_) => DataType.Interval(MonthDayNano)
    case Struct(_, fs) => DataType.Struct(fs)
    case Null => DataType.Null
  }

  /** `ScalarValue::is_null`. Binary, LargeBinary and the interval variants
      are not in the list, so their `None` is not reported null. */
  predicate IsNull(v: ScalarValue)
  {
    match v
    case Null => true
    case Boolean(x) => x.None?
    case UInt8(x) => x.None?
    case UInt16(x) => x.None?
    case UInt32(x) => x.None?
    case UInt64(x) => x.None?
    case Int8(x) => x.None?
    case Int16(x) => x.None?
    case Int32(x) => x.None?
    case Int64(x) => x.None?
    case Float32(x) => x.None?
    case Float64(x) => x.None?
    case Date32(x) => x.None?
    case Date64(x) => x.None?
    case Utf8(x) => x.None?
    case LargeUtf8(x) => x.None?
    case List(x, _) => x.NullNested?
    case TimestampSecond(x, _) => x.None?
    case TimestampMillisecond(x, _) => x.None?
    case TimestampMicrosecond(x, _) => x.None?
    case TimestampNanosecond(x, _) => x.None?
    case Struct(x, _) => x.NullNested?
    case Decimal128(x, _, _) => x.None?
    case _ => false
  }

  /** The timestamp variant of a time unit. */
  function TimestampValue(unit: TimeUnit, x: Option<I64>, tz: Option<string>): (v: ScalarValue)
    ensures GetDataType(v) == DataType.Timestamp(unit, tz)
    ensures v.i64Value == x
  {
    match unit
    case Second => TimestampSecond(x, tz)
    case Millisecond => TimestampMillisecond(x, tz)
    case Microsecond => TimestampMicrosecond(x, tz)
    case Nanosecond => TimestampNanosecond(x, tz)
  }

  /** The error for a data type that has no scalar null. */
  const NoScalarForType: DataFusionError := NotImplemented("Can't create a scalar from data_type")

  /** `TryFrom<&DataType> for ScalarValue`: the null of a data type. */
  function TypedNull(dt: DataType): (r: Result<ScalarValue>)
    ensures r.Err? ==> r.error == NoScalarForType
    decreases dt
  {
    match dt
    case Boolean => Ok(ScalarValue.Boolean(None))
    case Float64 => Ok(ScalarValue.Float64(None))
    case Float32 => Ok(ScalarValue.Float32(None))
    case Int8 => Ok(ScalarValue.Int8(None))
    case Int16 => Ok(ScalarValue.Int16(None))
    case Int32 => Ok(ScalarValue.Int32(None))
    case Int64 => Ok(ScalarValue.Int64(None))
    case UInt8 => Ok(ScalarValue.UInt8(None))
    case UInt16 => Ok(ScalarValue.UInt16(None))
    case UInt32 => Ok(ScalarValue.UInt32(None))
    case UInt64 => Ok(ScalarValue.UInt64(None))
    case Decimal(p, s) => Ok(Decimal128(None, p, s))
    case Utf8 => Ok(ScalarValue.Utf8(None))
    case LargeUtf8 => Ok(ScalarValue.LargeUtf8(None))
    case Date32 => Ok(ScalarValue.Date32(None))
    case Date64 => Ok(ScalarValue.Date64(None))
    case Timestamp(unit, tz) => Ok(TimestampValue(unit, None, tz))
    case Dictionary(_, valueType) => TypedNull(valueType)
    case List(item) => Ok(ScalarValue.List(NullNested, item.dataType))
    case Struct(fs) => Ok(ScalarValue.Struct(NullNested, fs))
    case Null => Ok(ScalarValue.Null)
    case _ => Err(NoScalarForType)
  }

  // ---------------------------------------------------------------------
  // Arithmetic negation

  /** IEEE negation: flip the sign bit. */
  function FlipSign(bits: nat, f: FloatFormat): nat
  {
    if bits >= SignBit(f) then bits - SignBit(f) else bits + SignBit(f)
  }

  const NegateOverflow: DataFusionError := Panic("attempt to negate with overflow")
  const NegateUnsupported: DataFusionError := Panic("Cannot run arithmetic negate on scalar value")

  /** `ScalarValue::arithmetic_negate`. Negating the minimum of a signed
      width overflows, which is a panic under Rust's checked arithmetic. */
  function ArithmeticNegate(v: ScalarValue): Result<ScalarValue>
  {
    match v
    case Boolean(None) => Ok(v)
    case Int8(None) => Ok(v)
    case Int16(None) => Ok(v)
    case Int32(None) => Ok(v)
    case Int64(None) => Ok(v)
    case Float32(None) => Ok(v)
    case Float64(Some(x)) => Ok(ScalarValue.Float64(Some(FlipSign(x, Double))))
    case Float32(Some(x)) => Ok(ScalarValue.Float32(Some(FlipSign(x, Single))))
    case Int8(Some(x)) => if x == -0x80 then Err(NegateOverflow) else Ok(ScalarValue.Int8(Some(-x)))
    case Int16(Some(x)) => if x == -0x8000 then Err(NegateOverflow) else Ok(ScalarValue.Int16(Some(-x)))
    case Int32(Some(x)) => if x == -0x8000_0000 then Err(NegateOverflow) else Ok(ScalarValue.Int32(Some(-x)))
    case Int64(Some(x)) =>
      if x == -0x8000_0000_0000_0000 then Err(NegateOverflow) else Ok(ScalarValue.Int64(Some(-x)))
    case Decimal128(Some(x), p, s) =>
      if x == -0x8000_0000_0000_0000_0000_0000_0000_0000 then Err(NegateOverflow)
      else Ok(Decimal128(Some(-x), p, s))
    case _ => Err(NegateUnsupported)
  }

  // ---------------------------------------------------------------------
  // Native conversions

  /** The native Rust types with both a `From` and a `TryFrom` conversion. */
  datatype NativeKind = KindI8 | KindI16 | KindI32 | KindI64 | KindU8 | KindU16 | KindU32 | KindU64
                      | KindF32 | KindF64 | KindBool

  datatype Native =
    | NativeI8(i8: I8) | NativeI16(i16: I16) | NativeI32(i32: I32) | NativeI64(i64: I64)
    | NativeU8(u8: U8) | NativeU16(u16: U16) | NativeU32(u32: U32) | NativeU64(u64: U64)
    | NativeF32(f32: F32Bits) | NativeF64(f64: F64Bits) | NativeBool(b: bool)

  function KindOf(n: Native): NativeKind
  {
    match n
    case NativeI8(_) => KindI8
    case NativeI16(_) => KindI16
    case NativeI32(_) => KindI32
    case NativeI64(_) => KindI64
    case NativeU8(_) => KindU8
    case NativeU16(_) => KindU16
    case NativeU32(_) => KindU32
    case NativeU64(_) => KindU64
    case NativeF32(_) => KindF32
    case NativeF64(_) => KindF64
    case NativeBool(_) => KindBool
  }

  function TypeName(k: NativeKind): string
  {
    match k
    case KindI8 => "i8"
    case KindI16 => "i16"
    case KindI32 => "i32"
    case KindI64 => "i64"
    case KindU8 => "u8"
    case KindU16 => "u16"
    case KindU32 => "u32"
    case KindU64 => "u64"
    case KindF32 => "f32"
    case KindF64 => "f64"
    case KindBool => "bool"
  }

  /** `From<T> for ScalarValue` (the `impl_scalar!` instances). */
  function FromNative(n: Native): ScalarValue
  {
    match n
    case NativeI8(x) => ScalarValue.Int8(Some(x))
    case NativeI16(x) => ScalarValue.Int16(Some(x))
    case NativeI32(x) => ScalarValue.Int32(Some(x))
    case NativeI64(x) => ScalarValue.Int64(Some(x))
    case NativeU8(x) => ScalarValue.UInt8(Some(x))
    case NativeU16(x) => ScalarValue.UInt16(Some(x))
    case NativeU32(x) => ScalarValue.UInt32(Some(x))
    case NativeU64(x) => ScalarValue.UInt64(Some(x))
    case NativeF32(x) => ScalarValue.Float32(Some(x))
    case NativeF64(x) => ScalarValue.Float64(Some(x))
    case NativeBool(x) => ScalarValue.Boolean(Some(x))
  }

  /** `From<Option<T>> for ScalarValue`: `None` becomes the typed null. */
  function FromOptionalNative(k: NativeKind, n: Option<Native>): ScalarValue
    requires n.Some? ==> KindOf(n.value) == k
  {
    match n
    case Some(x) => FromNative(x)
    case None =>
      match k
      case KindI8 => ScalarValue.Int8(None)
      case KindI16 => ScalarValue.Int16(None)
      case KindI32 => ScalarValue.Int32(None)
      case KindI64 => ScalarValue.Int64(None)
      case KindU8 => ScalarValue.UInt8(None)
      case KindU16 => ScalarValue.UInt16(None)
      case KindU32 => ScalarValue.UInt32(None)
      case KindU64 => ScalarValue.UInt64(None)
      case KindF32 => ScalarValue.Float32(None)
      case KindF64 => ScalarValue.Float64(None)
      case KindBool => ScalarValue.Boolean(None)
  }

  /** `From<Option<&str>>`: a `Utf8` value carrying the optional string. */
  function FromOptionalStr(s: Option<string>): (r: ScalarValue)
    ensures r.Utf8? && r.strValue == s
  {
    ScalarValue.Utf8(s)
  }

  /** `From<&str>`, which goes through `From<Option<&str>>` with `Some`. */
  function FromStr(s: string): (r: ScalarValue)
    ensures r.Utf8? && r.strValue == Some(s)
  {
    FromOptionalStr(Some(s))
  }

  /** `FromStr::from_str`, whose error type is `Infallible`: it never fails. */
  function ParseStr(s: string): (r: Result<ScalarValue>)
    ensures r.Ok? && r.value.Utf8? && r.value.strValue == Some(s)
  {
    Ok(FromStr(s))
  }

  function ConversionError(k: string): DataFusionError
  {
    Internal("Cannot convert value to " + k)
  }

  /** `TryFrom<ScalarValue>` for the native types: only a `Some` payload of
      the matching variant converts; `i32` also accepts `Date32` and `i64`
      also accepts `Date64` and the four timestamp variants. */
  function TryIntoNative(v: ScalarValue, k: NativeKind): Result<Native>
  {
    match (k, v)
    case (KindI8, Int8(Some(x))) => Ok(NativeI8(x))
    case (KindI16, Int16(Some(x))) => Ok(NativeI16(x))
    case (KindI32, Int32(Some(x))) => Ok(NativeI32(x))
    case (KindI32, Date32(Some(x))) => Ok(NativeI32(x))
    case (KindI64, Int64(Some(x))) => Ok(NativeI64(x))
    case (KindI64, Date64(Some(x))) => Ok(NativeI64(x))
    case (KindI64, TimestampNanosecond(Some(x), _)) => Ok(NativeI64(x))
    case (KindI64, TimestampMicrosecond(Some(x), _)) => Ok(NativeI64(x))
    case (KindI64, TimestampMillisecond(Some(x), _)) => Ok(NativeI64(x))
    case (KindI64, TimestampSecond(Some(x), _)) => Ok(NativeI64(x))
    case (KindU8, UInt8(Some(x))) => Ok(NativeU8(x))
    case (KindU16, UInt16(Some(x))) => Ok(NativeU16(x))
    case (KindU32, UInt32(Some(x))) => Ok(NativeU32(x))
    case (KindU64, UInt64(Some(x))) => Ok(NativeU64(x))
    case (KindF32, Float32(Some(x))) => Ok(NativeF32(x))
    case (KindF64, Float64(Some(x))) => Ok(NativeF64(x))
    case (KindBool, Boolean(Some(x))) => Ok(NativeBool(x))
    case _ => Err(ConversionError(TypeName(k)))
  }

  /** `TryFrom<ScalarValue> for i128`: the payload of a decimal. */
  function TryIntoI128(v: ScalarValue): Result<I128>
  {
    match v
    case Decimal128(Some(x), _, _) => Ok(x)
    case _ => Err(ConversionError("i128"))
  }

  /** `From<Vec<(&str, ScalarValue)>> for ScalarValue`: a struct whose
      fields are named by the pairs and typed by the values, not nullable. */
  function FromNamedValues(pairs: seq<(string, ScalarValue)>): (r: ScalarValue)
    ensures r.Struct? && r.structValues.Elems?
    ensures |r.structValues.items| == |r.fields| == |pairs|
    ensures forall i :: 0 <= i < |pairs| ==>
      r.structValues.items[i] == pairs[i].1 && r.fields[i] == Field(pairs[i].0, GetDataType(pairs[i].1), false)
  {
    ScalarValue.Struct(Elems(seq(|pairs|, i requires 0 <= i < |pairs| => pairs[i].1)),
                       seq(|pairs|, i requires 0 <= i < |pairs| => Field(pairs[i].0, GetDataType(pairs[i].1), false)))
  }

  // ---------------------------------------------------------------------
  // Display

  /** `format_option!`: the payload's `{}` or `NULL`. */
  function FormatOption<T>(v: Option<T>, show: T -> string): string
  {
    match v
    case Some(x) => show(x)
    case None => "NULL"
  }

  function BoolText(b: bool): string { if b then "true" else "false" }

  /** Rust's `{:?}` of an `Option<i128>`. */
  function DebugOptInt(v: Option<I128>): string
  {
    match v
    case Some(x) => "Some(" + IntToString(x) + ")"
    case None => "None"
  }

  function BytesText(bytes: seq<U8>): string
  {
    Join(seq(|bytes|, i requires 0 <= i < |bytes| => NatToString(bytes[i])), ",")
  }

  /** `Display for ScalarValue`. The rendering of a float payload belongs
      to Rust's float formatting and is passed in as `f32Text`/`f64Text`. */
  function Display(v: ScalarValue, f32Text: F32Bits -> string, f64Text: F64Bits -> string): string
    decreases v, 1
  {
    match v
    case Decimal128(x, p, s) => DebugOptInt(x) + "," + NatToString(p) + "," + NatToString(s)
    case Boolean(e) => FormatOption(e, BoolText)
    case Float32(e) => FormatOption(e, f32Text)
    case Float64(e) => FormatOption(e, f64Text)
    case Int8(e) => FormatOption(e, (x: I8) => IntToString(x))
    case Int16(e) => FormatOption(e, (x: I16) => IntToString(x))
    case Int32(e) => FormatOption(e, (x: I32) => IntToString(x))
    case Int64(e) => FormatOption(e, (x: I64) => IntToString(x))
    case UInt8(e) => FormatOption(e, (x: U8) => NatToString(x))
    case UInt16(e) => FormatOption(e, (x: U16) => NatToString(x))
    case UInt32(e) => FormatOption(e, (x: U32) => NatToString(x))
    case UInt64(e) => FormatOption(e, (x: U64) => NatToString(x))
    case TimestampSecond(e, _) => FormatOption(e, (x: I64) => IntToString(x))
    case TimestampMillisecond(e, _) => FormatOption(e, (x: I64) => IntToString(x))
    case TimestampMicrosecond(e, _) => FormatOption(e, (x: I64) => IntToString(x))
    case TimestampNanosecond(e, _) => FormatOption(e, (x: I64) => IntToString(x))
    case Utf8(e) => FormatOption(e, (s: string) => s)
    case LargeUtf8(e) => FormatOption(e, (s: string) => s)
    case Binary(e) => FormatOption(e, BytesText)
    case LargeBinary(e) => FormatOption(e, BytesText)
    case List(e, _) =>
      (match e
       case Elems(l) => Join(DisplayAll(l, f32Text, f64Text), ",")
       case NullNested => "NULL")
    case Date32(e) => FormatOption(e, (x: I32) => IntToString(x))
    case Date64(e) => FormatOption(e, (x: I64) => IntToString(x))
    case IntervalDayTime(e) => FormatOption(e, (x: I64) => IntToString(x))
    case IntervalYearMonth(e) => FormatOption(e, (x: I32) => IntToString(x))
    case IntervalMonthDayNano(e) => FormatOption(e, (x: I128) => IntToString(x))
    case Struct(e, fs) =>
      (match e
       case Elems(l) => "{" + Join(DisplayFields(l, fs, f32Text, f64Text), ",") + "}"
       case NullNested => "NULL")
    case Null => "NULL"
  }

  /** The displays of a vector of values, in order. */
  function DisplayAll(l: seq<ScalarValue>, f32Text: F32Bits -> string, f64Text: F64Bits -> string): (r: seq<string>)
    ensures |r| == |l|
    ensures forall i :: 0 <= i < |l| ==> r[i] == Display(l[i], f32Text, f64Text)
    decreases l
  {
    if l == [] then [] else [Display(l[0], f32Text, f64Text)] + DisplayAll(l[1..], f32Text, f64Text)
  }

  /** `values.zip(fields).map(|(v, f)| format!("{}:{}", f.name(), v))`: the
      zip stops at the shorter of the two. */
  function DisplayFields(l: seq<ScalarValue>, fs: seq<Field>, f32Text: F32Bits -> string, f64Text: F64Bits -> string): (r: seq<string>)
    ensures |r| == if |l| < |fs| then |l| else |fs|
    ensures forall i :: 0 <= i < |r| ==> r[i] == fs[i].name + ":" + Display(l[i], f32Text, f64Text)
    decreases l
  {
    if l == [] || fs == [] then []
    else [fs[0].name + ":" + Display(l[0], f32Text, f64Text)] + DisplayFields(l[1..], fs[1..], f32Text, f64Text)
  }
}
