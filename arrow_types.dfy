/**
 * The parts of Arrow's type system that the modelled code matches on:
 * `DataType`, `Field`, the time and interval units, the decimal precision
 * bound, and the fixed-width native integers and floats that scalar payloads
 * carry.
 */
module ArrowTypes {

  import opened DFErrors

  // Fixed-width native integers, as subsets of the unbounded integers.
  type I8 = x: int | -0x80 <= x < 0x80
  type I16 = x: int | -0x8000 <= x < 0x8000
  type I32 = x: int | -0x8000_0000 <= x < 0x8000_0000
  type I64 = x: int | -0x8000_0000_0000_0000 <= x < 0x8000_0000_0000_0000
  type I128 = x: int | -0x8000_0000_0000_0000_0000_0000_0000_0000 <= x < 0x8000_0000_0000_0000_0000_0000_0000_0000
  type U8 = x: int | 0 <= x < 0x100
  type U16 = x: int | 0 <= x < 0x1_0000
  type U32 = x: int | 0 <= x < 0x1_0000_0000
  type U64 = x: int | 0 <= x < 0x1_0000_0000_0000_0000
  type Usize = U64

  /** IEEE-754 values are carried as their raw bit patterns; the model
      never does floating-point arithmetic on them. */
  type F32Bits = x: int | 0 <= x < 0x1_0000_0000
  type F64Bits = x: int | 0 <= x < 0x1_0000_0000_0000_0000

  /** Largest precision Arrow allows for a 128-bit decimal. */
  const DECIMAL_MAX_PRECISION: nat := 38

  datatype TimeUnit = Second | Millisecond | Microsecond | Nanosecond

  datatype IntervalUnit = YearMonth | DayTime | MonthDayNano

  datatype DataType =
    | Null
    | Boolean
    | Int8 | Int16 | Int32 | Int64
    | UInt8 | UInt16 | UInt32 | UInt64
    | Float16 | Float32 | Float64
    | Timestamp(unit: TimeUnit, tz: Option<string>)
    | Date32 | Date64
    | Time32(timeUnit: TimeUnit) | Time64(timeUnit: TimeUnit)
    | Duration(timeUnit: TimeUnit)
    | Interval(intervalUnit: IntervalUnit)
    | Binary | FixedSizeBinary(byteWidth: I32) | LargeBinary
    | Utf8 | LargeUtf8
    | List(item: Field)
    | FixedSizeList(item: Field, listSize: I32)
    | LargeList(item: Field)
    | Struct(fields: seq<Field>)
    | Dictionary(keyType: DataType, valueType: DataType)
    | Decimal(precision: Usize, scale: Usize)

  /** An Arrow field: a name, a type and a nullability flag (field metadata
      is not modelled). */
  datatype Field = Field(name: string, dataType: DataType, nullable: bool)

}
