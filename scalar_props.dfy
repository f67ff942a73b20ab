/**
 * Properties of `ScalarValue`: equality and the partial order agree, the
 * order is antisymmetric, typed nulls and `get_datatype` invert each other
 * exactly on the values `is_null` reports, negation is an involution that
 * reverses the order, and the native conversions round-trip.
 */
module ScalarProps {

  import opened DFErrors
  import opened ArrowTypes
  import opened Scalar

  function Reverse(o: Ordering): Ordering
  {
    match o
    case Less => Greater
    case Equal => Equal
    case Greater => Less
  }

  function ReverseOpt(o: Option<Ordering>): Option<Ordering>
  {
    match o
    case None => None
    case Some(x) => Some(Reverse(x))
  }

  // ---------------------------------------------------------------------
  // Equality and order agree

  lemma {:induction false} CmpCharsEqual(x: string, y: string)
    ensures CmpChars(x, y) == Equal <==> x == y
    decreases |x|
  {
    if x != [] && y != [] && x[0] == y[0] {
      CmpCharsEqual(x[1..], y[1..]);
      assert x == [x[0]] + x[1..] && y == [y[0]] + y[1..];
    }
  }

  lemma {:induction false} CmpBytesEqual(x: seq<U8>, y: seq<U8>)
    ensures CmpBytes(x, y) == Equal <==> x == y
    decreases |x|
  {
    if x != [] && y != [] && x[0] == y[0] {
      CmpBytesEqual(x[1..], y[1..]);
      assert x == [x[0]] + x[1..] && y == [y[0]] + y[1..];
    }
  }

  lemma OrderedFloatEqIffSameKey(a: int, b: int, f: FloatFormat)
    ensures OrderedFloatEq(a, b, f) <==> OrderedFloatCmp(a, b, f) == Equal
  {
  }

  /** Variants whose payload is an optional integer (booleans, decimals and
      nulls included): their order is the integer order with None first. */
  predicate IntegerLike(a: ScalarValue)
  {
    a.Null? || a.Boolean? || a.Decimal128?
    || a.Int8? || a.Int16? || a.Int32? || a.Int64? || a.UInt8? || a.UInt16? || a.UInt32? || a.UInt64?
  }

  predicate TemporalLike(a: ScalarValue)
  {
    a.Date32? || a.Date64? || a.TimestampSecond? || a.TimestampMillisecond? || a.TimestampMicrosecond?
    || a.TimestampNanosecond? || a.IntervalYearMonth? || a.IntervalDayTime? || a.IntervalMonthDayNano?
  }

  lemma IntegerCmpEqualIffEq(a: ScalarValue, b: ScalarValue)
    requires Variant(a) == Variant(b) && IntegerLike(a)
    ensures PartialCmp(a, b) == Some(Equal) <==> Eq(a, b)
  {
  }

  lemma TemporalCmpEqualIffEq(a: ScalarValue, b: ScalarValue)
    requires Variant(a) == Variant(b) && TemporalLike(a)
    ensures PartialCmp(a, b) == Some(Equal) <==> Eq(a, b)
  {
  }

  lemma SequenceCmpEqualIffEq(a: ScalarValue, b: ScalarValue)
    requires Variant(a) == Variant(b) && (a.Utf8? || a.LargeUtf8? || a.Binary? || a.LargeBinary?)
    ensures PartialCmp(a, b) == Some(Equal) <==> Eq(a, b)
  {
    if (a.Utf8? || a.LargeUtf8?) && a.strValue.Some? && b.strValue.Some? {
      CmpCharsEqual(a.strValue.value, b.strValue.value);
    } else if (a.Binary? || a.LargeBinary?) && a.bytesValue.Some? && b.bytesValue.Some? {
      CmpBytesEqual(a.bytesValue.value, b.bytesValue.value);
    }
  }

  lemma FloatCmpEqualIffEq(a: ScalarValue, b: ScalarValue)
    requires Variant(a) == Variant(b) && (a.Float32? || a.Float64?)
    ensures PartialCmp(a, b) == Some(Equal) <==> Eq(a, b)
  {
    if a.Float32? && a.f32Value.Some? && b.f32Value.Some? {
      OrderedFloatEqIffSameKey(a.f32Value.value, b.f32Value.value, Single);
    } else if a.Float64? && a.f64Value.Some? && b.f64Value.Some? {
      OrderedFloatEqIffSameKey(a.f64Value.value, b.f64Value.value, Double);
    }
  }

  lemma {:induction false} NestedValueCmpEqualIffEq(a: ScalarValue, b: ScalarValue)
    requires Variant(a) == Variant(b) && (a.List? || a.Struct?)
    ensures PartialCmp(a, b) == Some(Equal) <==> Eq(a, b)
    decreases a, 1
  {
    if a.List? {
      NestedCmpEqualIffEq(a.listValues, b.listValues);
    } else {
      NestedCmpEqualIffEq(a.structValues, b.structValues);
    }
  }

  /** `partial_cmp` answers `Some(Equal)` exactly when `eq` holds. */
  lemma {:induction false} PartialCmpEqualIffEq(a: ScalarValue, b: ScalarValue)
    ensures PartialCmp(a, b) == Some(Equal) <==> Eq(a, b)
    decreases a, 2
  {
    if Variant(a) != Variant(b) {
      DifferentVariantsIncomparable(a, b);
    } else if a.List? || a.Struct? {
      NestedValueCmpEqualIffEq(a, b);
    } else if a.Utf8? || a.LargeUtf8? || a.Binary? || a.LargeBinary? {
      SequenceCmpEqualIffEq(a, b);
    } else if a.Float32? || a.Float64? {
      FloatCmpEqualIffEq(a, b);
    } else if IntegerLike(a) {
      IntegerCmpEqualIffEq(a, b);
    } else {
      TemporalCmpEqualIffEq(a, b);
    }
  }

  lemma {:induction false} NestedCmpEqualIffEq(v: Nested, w: Nested)
    ensures NestedCmp(v, w) == Some(Equal) <==> NestedEq(v, w)
    decreases v, 0
  {
    if v.Elems? && w.Elems? {
      LexCmpEqualIffSeqEq(v.items, w.items);
    }
  }

  lemma {:induction false} LexCmpEqualIffSeqEq(xs: seq<ScalarValue>, ys: seq<ScalarValue>)
    ensures LexCmp(xs, ys) == Some(Equal) <==> SeqEq(xs, ys)
    decreases xs
  {
    if xs != [] && ys != [] {
      PartialCmpEqualIffEq(xs[0], ys[0]);
      LexCmpEqualIffSeqEq(xs[1..], ys[1..]);
    }
  }

  // ---------------------------------------------------------------------
  // Equality is reflexive and symmetric

  lemma {:induction false} EqReflexive(a: ScalarValue)
    ensures Eq(a, a)
    decreases a, 1
  {
    match a
    case List(v, _) => NestedEqReflexive(v);
    case Struct(v, _) => NestedEqReflexive(v);
    case _ =>
  }

  lemma {:induction false} NestedEqReflexive(v: Nested)
    ensures NestedEq(v, v)
    decreases v, 0
  {
    if v.Elems? {
      SeqEqReflexive(v.items);
    }
  }

  lemma {:induction false} SeqEqReflexive(xs: seq<ScalarValue>)
    ensures SeqEq(xs, xs)
    decreases xs
  {
    if xs != [] {
      EqReflexive(xs[0]);
      SeqEqReflexive(xs[1..]);
    }
  }

  lemma {:induction false} EqSymmetric(a: ScalarValue, b: ScalarValue)
    requires Eq(a, b)
    ensures Eq(b, a)
    decreases a, 1
  {
    match a
    case List(v, _) => NestedEqSymmetric(v, b.listValues);
    case Struct(v, _) => NestedEqSymmetric(v, b.structValues);
    case _ =>
  }

  lemma {:induction false} NestedEqSymmetric(v: Nested, w: Nested)
    requires NestedEq(v, w)
    ensures NestedEq(w, v)
    decreases v, 0
  {
    if v.Elems? {
      SeqEqSymmetric(v.items, w.items);
    }
  }

  lemma {:induction false} SeqEqSymmetric(xs: seq<ScalarValue>, ys: seq<ScalarValue>)
    requires SeqEq(xs, ys)
    ensures SeqEq(ys, xs)
    decreases xs
  {
    if xs != [] {
      EqSymmetric(xs[0], ys[0]);
      SeqEqSymmetric(xs[1..], ys[1..]);
    }
  }

  /** Equality is transitive, so with reflexivity and symmetry it is the
      equivalence relation that `impl Eq for ScalarValue` promises. */
  lemma {:induction false} EqTransitive(a: ScalarValue, b: ScalarValue, c: ScalarValue)
    requires Eq(a, b) && Eq(b, c)
    ensures Eq(a, c)
    decreases a, 1
  {
    match a
    case List(v, _) => NestedEqTransitive(v, b.listValues, c.listValues);
    case Struct(v, _) => NestedEqTransitive(v, b.structValues, c.structValues);
    case _ =>
  }

  lemma {:induction false} NestedEqTransitive(u: Nested, v: Nested, w: Nested)
    requires NestedEq(u, v) && NestedEq(v, w)
    ensures NestedEq(u, w)
    decreases u, 0
  {
    if u.Elems? {
      SeqEqTransitive(u.items, v.items, w.items);
    }
  }

  lemma {:induction false} SeqEqTransitive(xs: seq<ScalarValue>, ys: seq<ScalarValue>, zs: seq<ScalarValue>)
    requires SeqEq(xs, ys) && SeqEq(ys, zs)
    ensures SeqEq(xs, zs)
    decreases xs
  {
    if xs != [] {
      EqTransitive(xs[0], ys[0], zs[0]);
      SeqEqTransitive(xs[1..], ys[1..], zs[1..]);
    }
  }

  /** Values of different variants are never equal ... */
  lemma DifferentVariantsUnequal(a: ScalarValue, b: ScalarValue)
    requires Variant(a) != Variant(b)
    ensures !Eq(a, b)
  {
    if Eq(a, b) {
      EqSameVariant(a, b);
    }
  }

  lemma EqSameVariant(a: ScalarValue, b: ScalarValue)
    requires Eq(a, b)
    ensures Variant(a) == Variant(b)
  {
    match a
    case Null =>
    case Boolean(_) =>
    case Float32(_) =>
    case Float64(_) =>
    case Decimal128(_, _, _) =>
    case Int8(_) =>
    case Int16(_) =>
    case Int32(_) =>
    case Int64(_) =>
    case UInt8(_) =>
    case UInt16(_) =>
    case UInt32(_) =>
    case UInt64(_) =>
    case Utf8(_) =>
    case LargeUtf8(_) =>
    case Binary(_) =>
    case LargeBinary(_) =>
    case List(_, _) =>
    case Date32(_) =>
    case Date64(_) =>
    case TimestampSecond(_, _) =>
    case TimestampMillisecond(_, _) =>
    case TimestampMicrosecond(_, _) =>
    case TimestampNanosecond(_, _) =>
    case IntervalYearMonth(_) =>
    case IntervalDayTime(_) =>
    case IntervalMonthDayNano(_) =>
    case Struct(_, _) =>
  }

  /** ... and never comparable. */
  lemma DifferentVariantsIncomparable(a: ScalarValue, b: ScalarValue)
    requires Variant(a) != Variant(b)
    ensures PartialCmp(a, b) == None
  {
  }

  /** Decimals of different precision or scale are unequal and
      incomparable, whatever their values. */
  lemma DecimalsOfDifferentShapeIncomparable(x: Option<I128>, p: Usize, s: Usize, y: Option<I128>, q: Usize, t: Usize)
    requires p != q || s != t
    ensures !Eq(Decimal128(x, p, s), Decimal128(y, q, t))
    ensures PartialCmp(Decimal128(x, p, s), Decimal128(y, q, t)) == None
  {
  }

  /** `Null` equals `Null` and compares Equal to it; decimals are equal
      exactly when value, precision and scale all match. */
  lemma NullAndDecimalEquality(x: Option<I128>, p: Usize, s: Usize, y: Option<I128>, q: Usize, t: Usize)
    ensures Eq(ScalarValue.Null, ScalarValue.Null) && PartialCmp(ScalarValue.Null, ScalarValue.Null) == Some(Equal)
    ensures Eq(Decimal128(x, p, s), Decimal128(y, q, t)) <==> x == y && p == q && s == t
  {
  }

  /** Timestamps of every unit compare by their value alone; the time
      zone is ignored by both equality and the order. */
  lemma TimestampIgnoresZone(unit: TimeUnit, x: Option<I64>, tz1: Option<string>, y: Option<I64>, tz2: Option<string>)
    ensures Eq(TimestampValue(unit, x, tz1), TimestampValue(unit, y, tz2)) <==> x == y
    ensures PartialCmp(TimestampValue(unit, x, tz1), TimestampValue(unit, y, tz2)) == Some(CmpOptInt(x, y))
  {
    var a, b := TimestampValue(unit, x, tz1), TimestampValue(unit, y, tz2);
    match unit
    case Second => assert a == TimestampSecond(x, tz1) && b == TimestampSecond(y, tz2);
    case Millisecond => assert a == TimestampMillisecond(x, tz1) && b == TimestampMillisecond(y, tz2);
    case Microsecond => assert a == TimestampMicrosecond(x, tz1) && b == TimestampMicrosecond(y, tz2);
    case Nanosecond => assert a == TimestampNanosecond(x, tz1) && b == TimestampNanosecond(y, tz2);
  }

  /** Lists with different element types are incomparable even when equal
      element by element is impossible to check. */
  lemma ListsOfDifferentTypesIncomparable(v: Nested, t: DataType, w: Nested, u: DataType)
    requires t != u
    ensures !Eq(ScalarValue.List(v, t), ScalarValue.List(w, u))
    ensures PartialCmp(ScalarValue.List(v, t), ScalarValue.List(w, u)) == None
  {
  }

  // ---------------------------------------------------------------------
  // The order is antisymmetric

  lemma {:induction false} CmpCharsConverse(x: string, y: string)
    ensures CmpChars(y, x) == Reverse(CmpChars(x, y))
    decreases |x|
  {
    if x != [] && y != [] && x[0] == y[0] {
      CmpCharsConverse(x[1..], y[1..]);
    }
  }

  lemma {:induction false} CmpBytesConverse(x: seq<U8>, y: seq<U8>)
    ensures CmpBytes(y, x) == Reverse(CmpBytes(x, y))
    decreases |x|
  {
    if x != [] && y != [] && x[0] == y[0] {
      CmpBytesConverse(x[1..], y[1..]);
    }
  }

  lemma IntegerCmpConverse(a: ScalarValue, b: ScalarValue)
    requires Variant(a) == Variant(b) && IntegerLike(a)
    ensures PartialCmp(b, a) == ReverseOpt(PartialCmp(a, b))
  {
  }

  lemma TemporalCmpConverse(a: ScalarValue, b: ScalarValue)
    requires Variant(a) == Variant(b) && TemporalLike(a)
    ensures PartialCmp(b, a) == ReverseOpt(PartialCmp(a, b))
  {
  }

  lemma SequenceCmpConverse(a: ScalarValue, b: ScalarValue)
    requires Variant(a) == Variant(b) && (a.Utf8? || a.LargeUtf8? || a.Binary? || a.LargeBinary?)
    ensures PartialCmp(b, a) == ReverseOpt(PartialCmp(a, b))
  {
    if (a.Utf8? || a.LargeUtf8?) && a.strValue.Some? && b.strValue.Some? {
      CmpCharsConverse(a.strValue.value, b.strValue.value);
    } else if (a.Binary? || a.LargeBinary?) && a.bytesValue.Some? && b.bytesValue.Some? {
      CmpBytesConverse(a.bytesValue.value, b.bytesValue.value);
    }
  }

  lemma FloatCmpConverse(a: ScalarValue, b: ScalarValue)
    requires Variant(a) == Variant(b) && (a.Float32? || a.Float64?)
    ensures PartialCmp(b, a) == ReverseOpt(PartialCmp(a, b))
  {
  }

  lemma {:induction false} NestedValueCmpConverse(a: ScalarValue, b: ScalarValue)
    requires Variant(a) == Variant(b) && (a.List? || a.Struct?)
    ensures PartialCmp(b, a) == ReverseOpt(PartialCmp(a, b))
    decreases a, 1
  {
    if a.List? {
      NestedCmpConverse(a.listValues, b.listValues);
    } else {
      NestedCmpConverse(a.structValues, b.structValues);
    }
  }

  /** Swapping the operands of `partial_cmp` reverses its answer. */
  lemma {:induction false} PartialCmpConverse(a: ScalarValue, b: ScalarValue)
    ensures PartialCmp(b, a) == ReverseOpt(PartialCmp(a, b))
    decreases a, 2
  {
    if Variant(a) != Variant(b) {
      DifferentVariantsIncomparable(a, b);
      DifferentVariantsIncomparable(b, a);
    } else if a.List? || a.Struct? {
      NestedValueCmpConverse(a, b);
    } else if a.Utf8? || a.LargeUtf8? || a.Binary? || a.LargeBinary? {
      SequenceCmpConverse(a, b);
    } else if a.Float32? || a.Float64? {
      FloatCmpConverse(a, b);
    } else if IntegerLike(a) {
      IntegerCmpConverse(a, b);
    } else {
      TemporalCmpConverse(a, b);
    }
  }

  lemma {:induction false} NestedCmpConverse(v: Nested, w: Nested)
    ensures NestedCmp(w, v) == ReverseOpt(NestedCmp(v, w))
    decreases v, 0
  {
    if v.Elems? && w.Elems? {
      LexCmpConverse(v.items, w.items);
    }
  }

  lemma {:induction false} LexCmpConverse(xs: seq<ScalarValue>, ys: seq<ScalarValue>)
    ensures LexCmp(ys, xs) == ReverseOpt(LexCmp(xs, ys))
    decreases xs
  {
    if xs != [] && ys != [] {
      PartialCmpConverse(xs[0], ys[0]);
      LexCmpConverse(xs[1..], ys[1..]);
    }
  }

  // ---------------------------------------------------------------------
  // The order is transitive

  /** Two answers that can be chained: one of them is `Equal`, or both
      point the same way. */
  predicate Chainable(o1: Ordering, o2: Ordering)
  {
    o1 == Equal || o2 == Equal || o1 == o2
  }

  /** The answer for `a` against `c`, given `a` against `b` and `b`
      against `c`. */
  function Then(o1: Ordering, o2: Ordering): Ordering
  {
    if o1 == Equal then o2 else o1
  }

  lemma {:induction false} CmpCharsTransitive(x: string, y: string, z: string)
    requires Chainable(CmpChars(x, y), CmpChars(y, z))
    ensures CmpChars(x, z) == Then(CmpChars(x, y), CmpChars(y, z))
    decreases |x|
  {
    if x != [] && y != [] && z != [] && x[0] == y[0] && y[0] == z[0] {
      CmpCharsTransitive(x[1..], y[1..], z[1..]);
    }
  }

  lemma {:induction false} CmpBytesTransitive(x: seq<U8>, y: seq<U8>, z: seq<U8>)
    requires Chainable(CmpBytes(x, y), CmpBytes(y, z))
    ensures CmpBytes(x, z) == Then(CmpBytes(x, y), CmpBytes(y, z))
    decreases |x|
  {
    if x != [] && y != [] && z != [] && x[0] == y[0] && y[0] == z[0] {
      CmpBytesTransitive(x[1..], y[1..], z[1..]);
    }
  }

  lemma CmpOptIntTransitive(x: Option<int>, y: Option<int>, z: Option<int>)
    requires Chainable(CmpOptInt(x, y), CmpOptInt(y, z))
    ensures CmpOptInt(x, z) == Then(CmpOptInt(x, y), CmpOptInt(y, z))
  {
  }

  lemma IntegerCmpTransitive(a: ScalarValue, b: ScalarValue, c: ScalarValue, o1: Ordering, o2: Ordering)
    requires IntegerLike(a)
    requires PartialCmp(a, b) == Some(o1) && PartialCmp(b, c) == Some(o2) && Chainable(o1, o2)
    ensures PartialCmp(a, c) == Some(Then(o1, o2))
  {
    match a
    case Null =>
    case Boolean(v) => CmpOptIntTransitive(OptBoolAsInt(v), OptBoolAsInt(b.boolValue), OptBoolAsInt(c.boolValue));
    case Decimal128(v, _, _) => CmpOptIntTransitive(v, b.decValue, c.decValue);
    case Int8(v) => CmpOptIntTransitive(v, b.i8Value, c.i8Value);
    case Int16(v) => CmpOptIntTransitive(v, b.i16Value, c.i16Value);
    case Int32(v) => CmpOptIntTransitive(v, b.i32Value, c.i32Value);
    case Int64(v) => CmpOptIntTransitive(v, b.i64Value, c.i64Value);
    case UInt8(v) => CmpOptIntTransitive(v, b.u8Value, c.u8Value);
    case UInt16(v) => CmpOptIntTransitive(v, b.u16Value, c.u16Value);
    case UInt32(v) => CmpOptIntTransitive(v, b.u32Value, c.u32Value);
    case UInt64(v) => CmpOptIntTransitive(v, b.u64Value, c.u64Value);
  }

  lemma TemporalCmpTransitive(a: ScalarValue, b: ScalarValue, c: ScalarValue, o1: Ordering, o2: Ordering)
    requires TemporalLike(a)
    requires PartialCmp(a, b) == Some(o1) && PartialCmp(b, c) == Some(o2) && Chainable(o1, o2)
    ensures PartialCmp(a, c) == Some(Then(o1, o2))
  {
    if a.TimestampSecond? || a.TimestampMillisecond? || a.TimestampMicrosecond? || a.TimestampNanosecond? {
      TimestampCmpTransitive(a, b, c, o1, o2);
    } else if a.Date32? || a.Date64? {
      DateCmpTransitive(a, b, c, o1, o2);
    } else {
      IntervalCmpTransitive(a, b, c, o1, o2);
    }
  }

  lemma DateCmpTransitive(a: ScalarValue, b: ScalarValue, c: ScalarValue, o1: Ordering, o2: Ordering)
    requires a.Date32? || a.Date64?
    requires PartialCmp(a, b) == Some(o1) && PartialCmp(b, c) == Some(o2) && Chainable(o1, o2)
    ensures PartialCmp(a, c) == Some(Then(o1, o2))
  {
    if a.Date32? {
      CmpOptIntTransitive(a.i32Value, b.i32Value, c.i32Value);
    } else {
      CmpOptIntTransitive(a.i64Value, b.i64Value, c.i64Value);
    }
  }

  lemma IntervalCmpTransitive(a: ScalarValue, b: ScalarValue, c: ScalarValue, o1: Ordering, o2: Ordering)
    requires a.IntervalYearMonth? || a.IntervalDayTime? || a.IntervalMonthDayNano?
    requires PartialCmp(a, b) == Some(o1) && PartialCmp(b, c) == Some(o2) && Chainable(o1, o2)
    ensures PartialCmp(a, c) == Some(Then(o1, o2))
  {
    if a.IntervalYearMonth? {
      CmpOptIntTransitive(a.i32Value, b.i32Value, c.i32Value);
    } else if a.IntervalDayTime? {
      CmpOptIntTransitive(a.i64Value, b.i64Value, c.i64Value);
    } else {
      CmpOptIntTransitive(a.i128Value, b.i128Value, c.i128Value);
    }
  }

  lemma TimestampCmpTransitive(a: ScalarValue, b: ScalarValue, c: ScalarValue, o1: Ordering, o2: Ordering)
    requires a.TimestampSecond? || a.TimestampMillisecond? || a.TimestampMicrosecond? || a.TimestampNanosecond?
    requires PartialCmp(a, b) == Some(o1) && PartialCmp(b, c) == Some(o2) && Chainable(o1, o2)
    ensures PartialCmp(a, c) == Some(Then(o1, o2))
  {
    CmpOptIntTransitive(a.i64Value, b.i64Value, c.i64Value);
  }

  lemma SequenceCmpTransitive(a: ScalarValue, b: ScalarValue, c: ScalarValue, o1: Ordering, o2: Ordering)
    requires (a.Utf8? || a.LargeUtf8? || a.Binary? || a.LargeBinary?)
    requires PartialCmp(a, b) == Some(o1) && PartialCmp(b, c) == Some(o2) && Chainable(o1, o2)
    ensures PartialCmp(a, c) == Some(Then(o1, o2))
  {
    if (a.Utf8? || a.LargeUtf8?) && a.strValue.Some? && b.strValue.Some? && c.strValue.Some? {
      CmpCharsTransitive(a.strValue.value, b.strValue.value, c.strValue.value);
    } else if (a.Binary? || a.LargeBinary?) && a.bytesValue.Some? && b.bytesValue.Some? && c.bytesValue.Some? {
      CmpBytesTransitive(a.bytesValue.value, b.bytesValue.value, c.bytesValue.value);
    }
  }

  lemma FloatCmpTransitive(a: ScalarValue, b: ScalarValue, c: ScalarValue, o1: Ordering, o2: Ordering)
    requires (a.Float32? || a.Float64?)
    requires PartialCmp(a, b) == Some(o1) && PartialCmp(b, c) == Some(o2) && Chainable(o1, o2)
    ensures PartialCmp(a, c) == Some(Then(o1, o2))
  {
  }

  lemma {:induction false} NestedValueCmpTransitive(a: ScalarValue, b: ScalarValue, c: ScalarValue, o1: Ordering,
                                                    o2: Ordering)
    requires (a.List? || a.Struct?)
    requires PartialCmp(a, b) == Some(o1) && PartialCmp(b, c) == Some(o2) && Chainable(o1, o2)
    ensures PartialCmp(a, c) == Some(Then(o1, o2))
    decreases a, 1
  {
    if a.List? {
      NestedCmpTransitive(a.listValues, b.listValues, c.listValues, o1, o2);
    } else {
      NestedCmpTransitive(a.structValues, b.structValues, c.structValues, o1, o2);
    }
  }

  /** `partial_cmp` is transitive: whenever `a` against `b` and `b` against
      `c` both have an answer and they can be chained, `a` against `c` has
      the chained answer. With `PartialCmpConverse` this is the contract of
      `PartialOrd`. */
  lemma {:induction false} PartialCmpTransitive(a: ScalarValue, b: ScalarValue, c: ScalarValue, o1: Ordering,
                                                o2: Ordering)
    requires PartialCmp(a, b) == Some(o1) && PartialCmp(b, c) == Some(o2) && Chainable(o1, o2)
    ensures PartialCmp(a, c) == Some(Then(o1, o2))
    decreases a, 2
  {
    if Variant(a) != Variant(b) {
      DifferentVariantsIncomparable(a, b);
    } else if Variant(b) != Variant(c) {
      DifferentVariantsIncomparable(b, c);
    } else if a.List? || a.Struct? {
      NestedValueCmpTransitive(a, b, c, o1, o2);
    } else if a.Utf8? || a.LargeUtf8? || a.Binary? || a.LargeBinary? {
      SequenceCmpTransitive(a, b, c, o1, o2);
    } else if a.Float32? || a.Float64? {
      FloatCmpTransitive(a, b, c, o1, o2);
    } else if IntegerLike(a) {
      IntegerCmpTransitive(a, b, c, o1, o2);
    } else {
      TemporalCmpTransitive(a, b, c, o1, o2);
    }
  }

  lemma {:induction false} NestedCmpTransitive(u: Nested, v: Nested, w: Nested, o1: Ordering, o2: Ordering)
    requires NestedCmp(u, v) == Some(o1) && NestedCmp(v, w) == Some(o2) && Chainable(o1, o2)
    ensures NestedCmp(u, w) == Some(Then(o1, o2))
    decreases u, 0
  {
    if u.Elems? && v.Elems? && w.Elems? {
      LexCmpTransitive(u.items, v.items, w.items, o1, o2);
    }
  }

  lemma {:induction false} LexCmpTransitive(xs: seq<ScalarValue>, ys: seq<ScalarValue>, zs: seq<ScalarValue>,
                                            o1: Ordering, o2: Ordering)
    requires LexCmp(xs, ys) == Some(o1) && LexCmp(ys, zs) == Some(o2) && Chainable(o1, o2)
    ensures LexCmp(xs, zs) == Some(Then(o1, o2))
    decreases xs
  {
    if xs != [] && ys != [] && zs != [] {
      var c1, c2 := PartialCmp(xs[0], ys[0]), PartialCmp(ys[0], zs[0]);
      if c1 == Some(Equal) && c2 == Some(Equal) {
        PartialCmpTransitive(xs[0], ys[0], zs[0], Equal, Equal);
        LexCmpTransitive(xs[1..], ys[1..], zs[1..], o1, o2);
      } else if c1 == Some(Equal) {
        PartialCmpTransitive(xs[0], ys[0], zs[0], Equal, o2);
      } else if c2 == Some(Equal) {
        PartialCmpTransitive(xs[0], ys[0], zs[0], o1, Equal);
      } else {
        PartialCmpTransitive(xs[0], ys[0], zs[0], o1, o2);
      }
    }
  }

  // ---------------------------------------------------------------------
  // Typed nulls and get_datatype

  /** A value is the typed null of its own data type exactly when
      `is_null` reports it; in particular `Binary(None)`,
      `LargeBinary(None)` and the interval nulls are neither. */
  lemma NullOfOwnType(v: ScalarValue)
    ensures IsNull(v) <==> TypedNull(GetDataType(v)) == Ok(v)
  {
  }

  /** The data type a typed null reports: the dictionary's value type, a
      list's element type under the field "item", otherwise the type
      itself. */
  function ReportedType(dt: DataType): DataType
    decreases dt
  {
    match dt
    case Dictionary(_, valueType) => ReportedType(valueType)
    case List(item) => DataType.List(Field("item", item.dataType, true))
    case _ => dt
  }

  lemma DirectTypedNull(dt: DataType)
    requires !dt.Dictionary? && TypedNull(dt).Ok?
    ensures IsNull(TypedNull(dt).value)
  {
  }

  lemma DirectTypedNullType(dt: DataType)
    requires !dt.Dictionary? && TypedNull(dt).Ok?
    ensures GetDataType(TypedNull(dt).value) == ReportedType(dt)
  {
    if dt.Timestamp? {
      assert TypedNull(dt).value == TimestampValue(dt.unit, None, dt.tz);
    } else if dt.List? {
      assert TypedNull(dt).value == ScalarValue.List(NullNested, dt.item.dataType);
    } else if dt.Decimal? || dt.Struct? {
    } else {
      assert ReportedType(dt) == dt;
    }
  }

  /** Every typed null is a null of the reported type. */
  lemma {:induction false} TypedNullIsNull(dt: DataType)
    requires TypedNull(dt).Ok?
    ensures IsNull(TypedNull(dt).value)
    ensures GetDataType(TypedNull(dt).value) == ReportedType(dt)
    decreases dt
  {
    if dt.Dictionary? {
      TypedNullIsNull(dt.valueType);
    } else {
      DirectTypedNull(dt);
      DirectTypedNullType(dt);
    }
  }

  /** Binary and interval types have no typed null ... */
  lemma BinaryAndIntervalHaveNoTypedNull(u: IntervalUnit)
    ensures TypedNull(DataType.Binary).Err?
    ensures TypedNull(DataType.Interval(u)).Err?
  {
  }

  /** ... and `is_null` does not report their `None` payloads. */
  lemma BinaryAndIntervalNoneAreNotNull()
    ensures !IsNull(ScalarValue.Binary(None)) && !IsNull(ScalarValue.LargeBinary(None))
    ensures !IsNull(IntervalYearMonth(None)) && !IsNull(IntervalDayTime(None)) && !IsNull(IntervalMonthDayNano(None))
  {
  }

  // ---------------------------------------------------------------------
  // Arithmetic negation

  /** Negating twice gives the value back whenever negating once succeeds. */
  lemma NegateInvolutive(v: ScalarValue)
    requires ArithmeticNegate(v).Ok?
    ensures ArithmeticNegate(ArithmeticNegate(v).value) == Ok(v)
  {
  }

  /** Negation keeps the data type (a decimal its precision and scale)
      and the nullness, and returns a negatable null unchanged. */
  lemma NegatePreservesType(v: ScalarValue)
    requires ArithmeticNegate(v).Ok?
    ensures GetDataType(ArithmeticNegate(v).value) == GetDataType(v)
    ensures IsNull(ArithmeticNegate(v).value) == IsNull(v)
    ensures IsNull(v) ==> ArithmeticNegate(v).value == v
  {
  }

  /** Negation fails exactly on the minimum of a signed width, the
      unsigned, string, binary, list, date, timestamp, interval and struct
      variants, and the nulls other than the boolean, signed integer and
      32-bit float ones. */
  lemma NegateFailsOn(v: ScalarValue)
    ensures ArithmeticNegate(v).Err? <==>
      match v
      case Boolean(x) => x.Some?
      case Float32(_) => false
      case Float64(x) => x.None?
      case Int8(x) => x == Some(-0x80)
      case Int16(x) => x == Some(-0x8000)
      case Int32(x) => x == Some(-0x8000_0000)
      case Int64(x) => x == Some(-0x8000_0000_0000_0000)
      case Decimal128(x, _, _) => x.None? || x == Some(-0x8000_0000_0000_0000_0000_0000_0000_0000)
      case _ => true
  {
  }

  lemma FlipSignKey(bits: nat, f: FloatFormat)
    requires bits < 2 * SignBit(f)
    requires !IsNaN(bits, f)
    ensures !IsNaN(FlipSign(bits, f), f)
    ensures OrderKey(FlipSign(bits, f), f) == -OrderKey(bits, f)
  {
    if bits >= SignBit(f) {
      assert Magnitude(FlipSign(bits, f), f) == Magnitude(bits, f);
    } else {
      assert Magnitude(FlipSign(bits, f), f) == Magnitude(bits, f);
    }
  }

  predicate NonNaN(v: ScalarValue)
  {
    (v.Float32? && v.f32Value.Some? ==> !IsNaN(v.f32Value.value, Single))
    && (v.Float64? && v.f64Value.Some? ==> !IsNaN(v.f64Value.value, Double))
  }

  /** Negation reverses the order of two non-null, non-NaN values. */
  lemma NegateReversesOrder(a: ScalarValue, b: ScalarValue)
    requires ArithmeticNegate(a).Ok? && ArithmeticNegate(b).Ok?
    requires !IsNull(a) && !IsNull(b) && NonNaN(a) && NonNaN(b)
    ensures PartialCmp(ArithmeticNegate(a).value, ArithmeticNegate(b).value) == ReverseOpt(PartialCmp(a, b))
  {
    if a.Float32? && b.Float32? {
      FlipSignKey(a.f32Value.value, Single);
      FlipSignKey(b.f32Value.value, Single);
    } else if a.Float64? && b.Float64? {
      FlipSignKey(a.f64Value.value, Double);
      FlipSignKey(b.f64Value.value, Double);
    }
  }

  // ---------------------------------------------------------------------
  // Native conversions

  /** `T::try_from(ScalarValue::from(x)) == Ok(x)`. */
  lemma NativeRoundTrip(n: Native)
    ensures TryIntoNative(FromNative(n), KindOf(n)) == Ok(n)
    ensures !IsNull(FromNative(n))
  {
  }

  /** A successful conversion yields a value of the requested kind taken
      from a non-null payload; converting back gives the value itself, or
      for dates and timestamps the plain integer of the same payload. */
  lemma TryIntoNativeSound(v: ScalarValue, k: NativeKind)
    requires TryIntoNative(v, k).Ok?
    ensures KindOf(TryIntoNative(v, k).value) == k
    ensures !IsNull(v)
    ensures FromNative(TryIntoNative(v, k).value) == v
         || (v.Date32? && FromNative(TryIntoNative(v, k).value) == ScalarValue.Int32(v.i32Value))
         || ((v.Date64? || v.TimestampSecond? || v.TimestampMillisecond? || v.TimestampMicrosecond? || v.TimestampNanosecond?)
             && FromNative(TryIntoNative(v, k).value) == ScalarValue.Int64(v.i64Value))
  {
  }

  /** Nulls never convert to a native value. */
  lemma TryIntoNativeRejectsNull(v: ScalarValue, k: NativeKind)
    requires IsNull(v)
    ensures TryIntoNative(v, k).Err? && TryIntoNative(v, k).error.Internal?
  {
  }

  /** `From<Option<T>>` maps `None` to the null of the type `From<T>` gives. */
  lemma FromOptionalNone(n: Native)
    ensures IsNull(FromOptionalNative(KindOf(n), None))
    ensures GetDataType(FromOptionalNative(KindOf(n), None)) == GetDataType(FromNative(n))
    ensures FromOptionalNative(KindOf(n), Some(n)) == FromNative(n)
  {
  }

  /** The decimal payload round-trips through `try_new_decimal128`. */
  lemma DecimalRoundTrip(x: I128, p: Usize, s: Usize)
    requires s <= p <= DECIMAL_MAX_PRECISION
    ensures TryNewDecimal128(x, p, s).Ok?
    ensures TryIntoI128(TryNewDecimal128(x, p, s).value) == Ok(x)
    ensures GetDataType(TryNewDecimal128(x, p, s).value) == DataType.Decimal(p, s)
  {
  }

  /** A struct built from named values has a struct type whose fields
      carry those names and the values' own types. */
  lemma NamedValuesType(pairs: seq<(string, ScalarValue)>)
    ensures GetDataType(FromNamedValues(pairs)).Struct?
    ensures |GetDataType(FromNamedValues(pairs)).fields| == |pairs|
    ensures forall i :: 0 <= i < |pairs| ==>
      GetDataType(FromNamedValues(pairs)).fields[i].name == pairs[i].0
      && GetDataType(FromNamedValues(pairs)).fields[i].dataType == GetDataType(pairs[i].1)
    ensures !IsNull(FromNamedValues(pairs))
  {
  }

  // ---------------------------------------------------------------------
  // Display

  /** Every null renders as `NULL`, except a decimal null, whose payload is
      rendered with `{:?}` as `None,<precision>,<scale>`. */
  lemma DisplayOfNull(v: ScalarValue, f32Text: F32Bits -> string, f64Text: F64Bits -> string)
    requires IsNull(v)
    ensures !v.Decimal128? ==> Display(v, f32Text, f64Text) == "NULL"
    ensures v.Decimal128? ==>
      Display(v, f32Text, f64Text) == "None," + NatToString(v.precision) + "," + NatToString(v.scale)
  {
  }

  /** The `None` payloads that `is_null` does not report (binary and
      interval) also render as `NULL`. */
  lemma DisplayOfUnreportedNulls(v: ScalarValue, f32Text: F32Bits -> string, f64Text: F64Bits -> string)
    requires v == ScalarValue.Binary(None) || v == ScalarValue.LargeBinary(None)
      || v == IntervalYearMonth(None) || v == IntervalDayTime(None) || v == IntervalMonthDayNano(None)
    ensures !IsNull(v)
    ensures Display(v, f32Text, f64Text) == "NULL"
  {
  }

  /** A string converted into a scalar reports type `Utf8`, is null exactly
      when it was `None`, is the typed null of `Utf8` in that case, and
      otherwise displays as the string itself; distinct strings give
      unequal scalars. */
  lemma StrConversions(s: Option<string>, x: string, y: string, f32Text: F32Bits -> string,
                       f64Text: F64Bits -> string)
    ensures GetDataType(FromOptionalStr(s)) == DataType.Utf8
    ensures IsNull(FromOptionalStr(s)) <==> s.None?
    ensures s.None? ==> TypedNull(DataType.Utf8) == Ok(FromOptionalStr(s))
    ensures s.None? ==> Display(FromOptionalStr(s), f32Text, f64Text) == "NULL"
    ensures Display(FromStr(x), f32Text, f64Text) == x
    ensures ParseStr(x) == Ok(FromStr(x))
    ensures Eq(FromStr(x), FromStr(y)) <==> x == y
  {
  }

  /** A one-element list renders as its element. */
  lemma DisplaySingletonList(x: ScalarValue, t: DataType, f32Text: F32Bits -> string, f64Text: F64Bits -> string)
    ensures Display(ScalarValue.List(Elems([x]), t), f32Text, f64Text) == Display(x, f32Text, f64Text)
  {
  }

  /** A list of several elements renders as its first element, a comma,
      and the rendering of the rest. */
  lemma DisplayListCons(x: ScalarValue, rest: seq<ScalarValue>, t: DataType, f32Text: F32Bits -> string,
                        f64Text: F64Bits -> string)
    requires rest != []
    ensures Display(ScalarValue.List(Elems([x] + rest), t), f32Text, f64Text)
         == Display(x, f32Text, f64Text) + "," + Display(ScalarValue.List(Elems(rest), t), f32Text, f64Text)
  {
    assert ([x] + rest)[1..] == rest;
  }

  /** A struct with at least as many fields as values renders each value
      after its field name, in order. */
  lemma DisplayStructFields(l: seq<ScalarValue>, fs: seq<Field>, f32Text: F32Bits -> string, f64Text: F64Bits -> string)
    requires |l| <= |fs|
    ensures var parts := DisplayFields(l, fs, f32Text, f64Text);
      Display(ScalarValue.Struct(Elems(l), fs), f32Text, f64Text) == "{" + Join(parts, ",") + "}"
      && |parts| == |l|
      && forall i :: 0 <= i < |l| ==> parts[i] == fs[i].name + ":" + Display(l[i], f32Text, f64Text)
  {
  }

  lemma IntToStringLead(n: int)
    ensures IntToString(n)[0] == '-' <==> n < 0
    ensures IntToString(n)[0] == '-' || '0' <= IntToString(n)[0] <= '9'
  {
  }

  lemma IntToStringInjective(a: int, b: int)
    requires IntToString(a) == IntToString(b)
    ensures a == b
  {
    IntToStringLead(a);
    IntToStringLead(b);
    if a < 0 {
      PrefixedNumeralInjective("-", -a, -b);
    } else {
      NatToStringInjective(a, b);
    }
  }

  /** Two 64-bit integers that render alike are the same integer. */
  lemma DisplayDistinguishesInt64(x: Option<I64>, y: Option<I64>, f32Text: F32Bits -> string, f64Text: F64Bits -> string)
    requires Display(ScalarValue.Int64(x), f32Text, f64Text) == Display(ScalarValue.Int64(y), f32Text, f64Text)
    ensures x == y
  {
    if x.Some? {
      IntToStringLead(x.value);
    }
    if y.Some? {
      IntToStringLead(y.value);
    }
    if x.Some? && y.Some? {
      IntToStringInjective(x.value, y.value);
    }
  }

  /** A decimal renders its value, precision and scale. */
  lemma DisplayDecimal(x: I128, p: Usize, s: Usize, f32Text: F32Bits -> string, f64Text: F64Bits -> string)
    ensures Display(Decimal128(Some(x), p, s), f32Text, f64Text)
         == "Some(" + IntToString(x) + ")," + NatToString(p) + "," + NatToString(s)
  {
  }

  /** The field names and values are zipped: values beyond the last field
      are not rendered. */
  lemma DisplayStructDropsExtraValues(l: seq<ScalarValue>, fs: seq<Field>, f32Text: F32Bits -> string,
                                      f64Text: F64Bits -> string)
    requires |fs| <= |l|
    ensures Display(ScalarValue.Struct(Elems(l), fs), f32Text, f64Text)
         == Display(ScalarValue.Struct(Elems(l[..|fs|]), fs), f32Text, f64Text)
  {
    DisplayFieldsPrefix(l, fs, f32Text, f64Text);
  }

  lemma {:induction false} DisplayFieldsPrefix(l: seq<ScalarValue>, fs: seq<Field>, f32Text: F32Bits -> string,
                                               f64Text: F64Bits -> string)
    requires |fs| <= |l|
    ensures DisplayFields(l, fs, f32Text, f64Text) == DisplayFields(l[..|fs|], fs, f32Text, f64Text)
    decreases fs
  {
    if fs != [] {
      assert l[..|fs|][1..] == l[1..][..|fs| - 1];
      DisplayFieldsPrefix(l[1..], fs[1..], f32Text, f64Text);
    }
  }
}
