# DataFusion logical-plan core in Dafny

This project models three parts of the DataFusion query engine and proves
properties of them.

- **`ScalarValue`** (`datafusion/common/src/scalar.rs`) is the single-value
  type of the engine. The model covers:
  - its 28 variants (nullable payloads, decimals with precision and scale,
    timestamps with a time zone, lists and structs);
  - the hand-written equality and partial order, which compare only values
    of the same variant;
  - decimal construction, the reported data type, arithmetic negation and
    the null test;
  - the typed null of a `DataType`;
  - the conversions from and to native Rust values;
  - the struct built from named values;
  - the `Display` text.
- **The logical plan builder** (`datafusion/core/src/logical_plan/builder.rs`).
  The model covers:
  - the VALUES relation: its width check, its column-type inference and its
    null back-filling;
  - the join schema, with metadata merged so that the right side wins;
  - the duplicate-name check of a projection;
  - positional column aliasing;
  - UNION flattening and its compatibility check;
  - the key-length check of a join;
  - the order in which window groups are nested.
- **The optimizer utilities** (`datafusion/core/src/optimizer/utils.rs`).
  The model covers:
  - the flattening of an expression into its sub-expressions;
  - the rebuilding of an expression from such a list, including the marker
    literals that delimit CASE and window parts;
  - splitting a predicate into its conjuncts, and folding conjuncts back
    into a filter;
  - `from_plan`'s slicing of a flat expression list and its reassembly into
    each kind of plan node.

Files:

| file | content |
|---|---|
| `errors.dfy` | `DataFusionError`, `Result`, `Option`, decimal numerals, `Join` |
| `arrow_types.dfy` | Arrow `DataType`, `Field`, fixed-width integer subset types |
| `scalar.dfy` | `ScalarValue` and its operations |
| `scalar_props.dfy` | lemmas about equality, order, nulls, negation, conversions and display |
| `logical.dfy` | `Expr`, `LogicalPlan`, `DFSchema`, `DFField` |
| `builder.dfy` | the builder operations; VALUES, name validation and window nesting are imperative |
| `values_props.dfy` | a characterisation of the VALUES relation |
| `builder_props.dfy` | lemmas about aliasing, UNION and the window-group order |
| `optimizer_utils.dfy` | expression decomposition and rebuilding, conjunct splitting, `from_plan` |
| `optimizer_props.dfy` | round trips and reassembly lemmas |

Conventions:

- A Rust `panic!` (an index out of bounds, `assert!`, `unwrap` on `None`)
  is modelled as `Err(Panic(..))` or `Err(IndexOutOfBounds)`. Nothing
  aborts silently.
- Fixed-width integers are subset types of `int` (`I8` … `U64`, `I128`;
  `usize` is `U64`). Negating the minimum of a type panics, as Rust's
  arithmetic does in debug builds.
- Floats are their IEEE bit patterns. Their order is the total order that
  `ordered_float` uses, with NaN above everything. Their text is a
  parameter.
- Some calls go into code this model does not include. These become
  function parameters:
  - `Expr::get_type` (`typeOf`);
  - `Expr::name` (`nameOf`);
  - the `{:?}` rendering of an expression (`debug`);
  - the field validation of `DFSchema::new_with_metadata` (`validate`);
  - `DFSchema::check_arrow_schema_type_compatible` (`compatible`);
  - the column normalisation of a join (`resolve`);
  - `LogicalPlanBuilder::window(..).build()` (`window`).

## Model

| member | source | states |
|---|---|---|
| Scalar.Variant | datafusion/common/src/scalar.rs:41-100 | each value belongs to one of the 28 variants of the enum |
| Scalar.OrderKey | datafusion/common/src/scalar.rs:201-212 | the `ordered_float` key of a float: NaN receives the key just above +infinity, and every key lies between -infinity and NaN |
| Scalar.CmpInt | datafusion/common/src/scalar.rs:213-228 | the comparison of two numbers is Equal exactly when they are equal and Less exactly when the first is smaller |
| Scalar.Eq | datafusion/common/src/scalar.rs:104-179 | `PartialEq`: equal only within one variant, comparing payloads (floats as ordered floats, decimals with precision and scale, timestamps ignoring the zone, lists and structs element-wise with their element types or fields); reflexive, symmetric and transitive (the equivalence `impl Eq` at line 283 promises) and equal exactly when `PartialCmp` says `Equal`, by the `Eq*`, `DifferentVariantsUnequal`, `NullAndDecimalEquality`, `TimestampIgnoresZone` and `PartialCmpEqualIffEq` lemmas |
| Scalar.PartialCmp | datafusion/common/src/scalar.rs:183-281 | `PartialOrd`: `None` across variants, across decimals of different precision or scale and across lists of different element types, otherwise the payload order with `None` first; `PartialCmpConverse` proves swapping the operands reverses the answer, and `PartialCmpTransitive` that chained answers compose |
| ScalarProps.CmpCharsEqual | datafusion/common/src/scalar.rs:229-232 | comparing two strings yields Equal exactly when they are the same string |
| ScalarProps.CmpBytesEqual | datafusion/common/src/scalar.rs:233-236 | comparing two byte strings yields Equal exactly when they are the same bytes |
| ScalarProps.OrderedFloatEqIffSameKey | datafusion/common/src/scalar.rs:117-128 | the float equality (every NaN equal to every NaN) holds exactly when the float order says Equal |
| ScalarProps.IntegerCmpEqualIffEq | datafusion/common/src/scalar.rs:104-281 | for integer-like variants and decimals, `partial_cmp` yields `Some(Equal)` exactly when `eq` holds |
| ScalarProps.TemporalCmpEqualIffEq | datafusion/common/src/scalar.rs:104-281 | for dates, times, timestamps and intervals, `partial_cmp` yields `Some(Equal)` exactly when `eq` holds |
| ScalarProps.SequenceCmpEqualIffEq | datafusion/common/src/scalar.rs:104-281 | for string and binary variants, `partial_cmp` yields `Some(Equal)` exactly when `eq` holds |
| ScalarProps.FloatCmpEqualIffEq | datafusion/common/src/scalar.rs:104-281 | for Float32 and Float64, `partial_cmp` yields `Some(Equal)` exactly when `eq` holds |
| ScalarProps.NestedValueCmpEqualIffEq | datafusion/common/src/scalar.rs:104-281 | for lists and structs, `partial_cmp` yields `Some(Equal)` exactly when `eq` holds |
| ScalarProps.PartialCmpEqualIffEq | datafusion/common/src/scalar.rs:104-281 | for all values, `partial_cmp` and `eq` agree: `Some(Equal)` exactly when `eq` holds |
| ScalarProps.NestedCmpEqualIffEq | datafusion/common/src/scalar.rs:237-276 | the order on optional element lists agrees with their equality |
| ScalarProps.LexCmpEqualIffSeqEq | datafusion/common/src/scalar.rs:237-276 | the lexicographic order on element lists is Equal exactly when the lists are element-wise equal |
| ScalarProps.EqReflexive | datafusion/common/src/scalar.rs:104-179 | `eq` is reflexive on every value, NaN floats included |
| ScalarProps.NestedEqReflexive | datafusion/common/src/scalar.rs:153-174 | equality of optional element lists is reflexive |
| ScalarProps.SeqEqReflexive | datafusion/common/src/scalar.rs:153-174 | element-wise equality of lists is reflexive |
| ScalarProps.EqSymmetric | datafusion/common/src/scalar.rs:104-179 | `eq` is symmetric |
| ScalarProps.NestedEqSymmetric | datafusion/common/src/scalar.rs:153-174 | equality of optional element lists is symmetric |
| ScalarProps.SeqEqSymmetric | datafusion/common/src/scalar.rs:153-174 | element-wise equality of lists is symmetric |
| ScalarProps.EqTransitive | datafusion/common/src/scalar.rs:104-179 | `eq` is transitive; with reflexivity and symmetry it is the equivalence relation that `impl Eq` (line 283) promises |
| ScalarProps.NestedEqTransitive | datafusion/common/src/scalar.rs:153-174 | equality of optional element lists is transitive |
| ScalarProps.SeqEqTransitive | datafusion/common/src/scalar.rs:153-174 | element-wise equality of lists is transitive |
| ScalarProps.DifferentVariantsUnequal | datafusion/common/src/scalar.rs:104-179 | values of different variants are never equal (the `(_, _) => false` arms) |
| ScalarProps.EqSameVariant | datafusion/common/src/scalar.rs:104-179 | equal values are of the same variant |
| ScalarProps.DifferentVariantsIncomparable | datafusion/common/src/scalar.rs:183-281 | values of different variants are incomparable (`None`) |
| ScalarProps.DecimalsOfDifferentShapeIncomparable | datafusion/common/src/scalar.rs:190-198 | decimals with a different precision or scale are neither equal nor comparable |
| ScalarProps.NullAndDecimalEquality | datafusion/common/src/scalar.rs:104-281 | `Null` equals `Null` and compares Equal to it; decimals are equal exactly when value, precision and scale all match |
| ScalarProps.TimestampIgnoresZone | datafusion/common/src/scalar.rs:159-166 | for each of the four units, two timestamps are equal exactly when their values are, and compare by their values alone, whatever their time zones |
| ScalarProps.ListsOfDifferentTypesIncomparable | datafusion/common/src/scalar.rs:237-244 | lists whose element types differ are neither equal nor comparable |
| ScalarProps.CmpCharsConverse | datafusion/common/src/scalar.rs:229-232 | comparing strings in the other order reverses the result |
| ScalarProps.CmpBytesConverse | datafusion/common/src/scalar.rs:233-236 | comparing byte strings in the other order reverses the result |
| ScalarProps.IntegerCmpConverse | datafusion/common/src/scalar.rs:183-281 | `partial_cmp(b, a)` is the reverse of `partial_cmp(a, b)` for integer-like variants |
| ScalarProps.TemporalCmpConverse | datafusion/common/src/scalar.rs:183-281 | `partial_cmp(b, a)` is the reverse of `partial_cmp(a, b)` for temporal variants |
| ScalarProps.SequenceCmpConverse | datafusion/common/src/scalar.rs:183-281 | `partial_cmp(b, a)` is the reverse of `partial_cmp(a, b)` for string and binary variants |
| ScalarProps.FloatCmpConverse | datafusion/common/src/scalar.rs:183-281 | `partial_cmp(b, a)` is the reverse of `partial_cmp(a, b)` for floats |
| ScalarProps.NestedValueCmpConverse | datafusion/common/src/scalar.rs:183-281 | `partial_cmp(b, a)` is the reverse of `partial_cmp(a, b)` for lists and structs |
| ScalarProps.PartialCmpConverse | datafusion/common/src/scalar.rs:183-281 | `partial_cmp` is antisymmetric on all values: swapping the operands reverses the ordering, and `None` stays `None` |
| ScalarProps.NestedCmpConverse | datafusion/common/src/scalar.rs:237-276 | the order on optional element lists is antisymmetric |
| ScalarProps.LexCmpConverse | datafusion/common/src/scalar.rs:237-276 | the lexicographic order on element lists is antisymmetric |
| ScalarProps.CmpCharsTransitive | datafusion/common/src/scalar.rs:229-232 | string comparison is transitive: x against z is the chain of x against y and y against z |
| ScalarProps.CmpBytesTransitive | datafusion/common/src/scalar.rs:233-236 | byte-string comparison is transitive |
| ScalarProps.CmpOptIntTransitive | datafusion/common/src/scalar.rs:187-228 | the order on optional integers (`None` first) is transitive |
| ScalarProps.IntegerCmpTransitive | datafusion/common/src/scalar.rs:183-281 | `partial_cmp` is transitive for the integer-like variants, decimals and `Null` |
| ScalarProps.TemporalCmpTransitive | datafusion/common/src/scalar.rs:183-281 | `partial_cmp` is transitive for dates, timestamps and intervals |
| ScalarProps.DateCmpTransitive | datafusion/common/src/scalar.rs:183-281 | `partial_cmp` is transitive for `Date32` and `Date64` |
| ScalarProps.TimestampCmpTransitive | datafusion/common/src/scalar.rs:183-281 | `partial_cmp` is transitive for the four timestamp units, zones ignored |
| ScalarProps.IntervalCmpTransitive | datafusion/common/src/scalar.rs:183-281 | `partial_cmp` is transitive for the three interval variants |
| ScalarProps.SequenceCmpTransitive | datafusion/common/src/scalar.rs:183-281 | `partial_cmp` is transitive for string and binary variants |
| ScalarProps.FloatCmpTransitive | datafusion/common/src/scalar.rs:183-281 | `partial_cmp` is transitive for floats under the `OrderedFloat` order |
| ScalarProps.NestedValueCmpTransitive | datafusion/common/src/scalar.rs:183-281 | `partial_cmp` is transitive for lists and structs |
| ScalarProps.PartialCmpTransitive | datafusion/common/src/scalar.rs:183-281 | `partial_cmp` is transitive on all values: if `a` against `b` and `b` against `c` both answer and one is `Equal` or both agree, `a` against `c` answers the chained ordering |
| ScalarProps.NestedCmpTransitive | datafusion/common/src/scalar.rs:237-276 | the order on optional element lists is transitive |
| ScalarProps.LexCmpTransitive | datafusion/common/src/scalar.rs:237-276 | the lexicographic order on element lists is transitive |
| Scalar.TryNewDecimal128 | datafusion/common/src/scalar.rs:543-556 | succeeds exactly when precision ≤ `DECIMAL_MAX_PRECISION` and scale ≤ precision, and then yields the decimal with that value, precision and scale; otherwise an Internal error |
| ScalarProps.DecimalRoundTrip | datafusion/common/src/scalar.rs:543-556 | a valid decimal converts back to its `i128` and reports `Decimal(precision, scale)` as its type |
| Scalar.GetDataType | datafusion/common/src/scalar.rs:558-607 | the data type of a value, one per variant, a timestamp carrying its unit and zone and a list its element type; `NullOfOwnType` and `DirectTypedNullType` tie it to `TypedNull` |
| Scalar.IsNull | datafusion/common/src/scalar.rs:632-659 | true for a `None` payload of every variant except binary and interval, and for `Null`; `TypedNullIsNull` and `BinaryAndIntervalNoneAreNotNull` state both sides |
| Scalar.TimestampValue | datafusion/common/src/scalar.rs:1726-1780 | the timestamp of a unit reports `Timestamp(unit, tz)` as its type and keeps its payload |
| Scalar.TypedNull | datafusion/common/src/scalar.rs:1726-1780 | a data type without a null scalar, such as Binary or an interval, yields the NotImplemented error "Can't create a scalar from data_type" |
| ScalarProps.NullOfOwnType | datafusion/common/src/scalar.rs:558-659 | a value is null exactly when it equals the typed null of its own data type |
| ScalarProps.DirectTypedNull | datafusion/common/src/scalar.rs:1726-1780 | the typed null of a non-dictionary type is null |
| ScalarProps.DirectTypedNullType | datafusion/common/src/scalar.rs:558-607 | the typed null of a non-dictionary type reports that type again, except that a list comes back with its element field named `item` and nullable, as `get_datatype` rebuilds it at line 590 (`Decimal` and `Struct` as written) |
| ScalarProps.TypedNullIsNull | datafusion/common/src/scalar.rs:1726-1780 | every typed null, dictionaries included, is null and reports the type its value type reports |
| ScalarProps.BinaryAndIntervalHaveNoTypedNull | datafusion/common/src/scalar.rs:1726-1780 | `Binary` and interval types have no typed null |
| ScalarProps.BinaryAndIntervalNoneAreNotNull | datafusion/common/src/scalar.rs:632-659 | `is_null` is false for `Binary(None)`, `LargeBinary(None)` and the interval variants with `None` |
| Scalar.ArithmeticNegate | datafusion/common/src/scalar.rs:610-629 | negates the Float32, Float64, Int8-Int64 and Decimal128 payloads (a panic error at the minimum of each integer width), returns the `None` of Boolean, Int8-Int64 and Float32 unchanged, and is a panic error for everything else; `NegateInvolutive`, `NegatePreservesType`, `NegateFailsOn` and `NegateReversesOrder` state what it does |
| ScalarProps.NegateInvolutive | datafusion/common/src/scalar.rs:610-629 | negating twice gives the original value whenever the first negation succeeds |
| ScalarProps.NegatePreservesType | datafusion/common/src/scalar.rs:610-629 | negation keeps the data type (a decimal its precision and scale) and the nullness, and returns a negatable null unchanged |
| ScalarProps.NegateFailsOn | datafusion/common/src/scalar.rs:610-629 | negation fails exactly on unsupported variants and on the minimum of a signed integer |
| ScalarProps.FlipSignKey | datafusion/common/src/scalar.rs:618-619 | flipping the sign bit of a non-NaN float negates its order key |
| ScalarProps.NegateReversesOrder | datafusion/common/src/scalar.rs:610-629 | negating two non-null, non-NaN values of a negatable variant reverses their order |
| Scalar.FromNative | datafusion/common/src/scalar.rs:1580-1606 | `From<T>`: wraps a native value in the variant of its type; `NativeRoundTrip` proves `TryIntoNative` gives it back |
| Scalar.FromOptionalNative | datafusion/common/src/scalar.rs:1580-1606 | `From<Option<T>>`: `None` becomes the typed null of the variant (`FromOptionalNone`) and `Some(x)` the value |
| Scalar.TryIntoNative | datafusion/common/src/scalar.rs:1642-1724 | `TryFrom<ScalarValue>`: the payload of a non-null value of the expected variant (`i32` also from Date32, `i64` also from Date64 and the timestamps), an Internal error otherwise; `TryIntoNativeSound` and `TryIntoNativeRejectsNull` state both cases |
| Scalar.TryIntoI128 | datafusion/common/src/scalar.rs:1702-1717 | `TryFrom<ScalarValue> for i128`: the unscaled value of a non-null decimal, an error otherwise; `DecimalRoundTrip` proves it inverts `TryNewDecimal128` |
| ScalarProps.NativeRoundTrip | datafusion/common/src/scalar.rs:1580-1724 | converting a native value into a scalar and back returns it, and the scalar is not null |
| ScalarProps.TryIntoNativeSound | datafusion/common/src/scalar.rs:1642-1724 | a successful conversion into a native value has the requested kind, comes from a non-null value, and converts back to it |
| ScalarProps.TryIntoNativeRejectsNull | datafusion/common/src/scalar.rs:1642-1724 | converting a null into a native value is an Internal error |
| ScalarProps.FromOptionalNone | datafusion/common/src/scalar.rs:1580-1619 | `From<Option<T>>` of `None` is the null of T's type, and of `Some(x)` is `From<T>` of x |
| Scalar.FromOptionalStr | datafusion/common/src/scalar.rs:1614-1619 | `From<Option<&str>>`: a `Utf8` value carrying the optional string |
| Scalar.FromStr | datafusion/common/src/scalar.rs:1608-1612 | `From<&str>`: a `Utf8` value carrying `Some` of the string |
| Scalar.ParseStr | datafusion/common/src/scalar.rs:1621-1627 | `FromStr::from_str` never fails (its error type is `Infallible`) and gives the `Utf8` value of the string |
| ScalarProps.StrConversions | datafusion/common/src/scalar.rs:1608-1627 | a converted string reports type `Utf8`; it is null exactly when it was `None`, and is then the typed null of `Utf8` and displays as `NULL`; a present string displays as itself; `from_str` is `Ok` of `From<&str>`; distinct strings give unequal scalars |
| Scalar.FromNamedValues | datafusion/common/src/scalar.rs:1629-1640 | the struct built from named values has one nullable-false field per pair, named after it and typed by its value, and holds the values in order |
| ScalarProps.NamedValuesType | datafusion/common/src/scalar.rs:1629-1640 | that struct reports a Struct type with one field per pair, and it is not null |
| Scalar.Display | datafusion/common/src/scalar.rs:1782-1868 | `fmt::Display`: the text of a value with floats rendered by the given formatters; the `Display*` lemmas state its output for nulls, decimals, lists and structs, and `DisplayDistinguishesInt64` that it is injective on Int64 |
| Scalar.DisplayAll | datafusion/common/src/scalar.rs:1836-1845 | the text of each list element is the element's display |
| Scalar.DisplayFields | datafusion/common/src/scalar.rs:1852-1863 | the part for each struct field is `name:value`, taken over the shorter of fields and values |
| ScalarProps.DisplayOfNull | datafusion/common/src/scalar.rs:1782-1868 | every null displays as `NULL`, except a null decimal, which displays as the decimal's formatting of `None` |
| ScalarProps.DisplayOfUnreportedNulls | datafusion/common/src/scalar.rs:1815-1850 | a binary, large-binary or interval value with a `None` payload displays as `NULL` although `is_null` does not report it |
| ScalarProps.DisplaySingletonList | datafusion/common/src/scalar.rs:1836-1845 | a one-element list displays as its element |
| ScalarProps.DisplayListCons | datafusion/common/src/scalar.rs:1836-1845 | a longer list displays as its head, a comma, and the display of its rest |
| ScalarProps.DisplayStructFields | datafusion/common/src/scalar.rs:1852-1863 | a struct displays as `{` followed by the comma-joined `name:value` parts and `}` |
| ScalarProps.IntToStringLead | datafusion/common/src/scalar.rs:1782-1868 | an integer's text starts with `-` exactly when the integer is negative, and starts with a digit otherwise |
| ScalarProps.IntToStringInjective | datafusion/common/src/scalar.rs:1782-1868 | different integers have different texts |
| ScalarProps.DisplayDistinguishesInt64 | datafusion/common/src/scalar.rs:1782-1868 | two Int64 values with the same display are the same value |
| ScalarProps.DisplayDecimal | datafusion/common/src/scalar.rs:1782-1868 | a non-null decimal displays its payload with `{:?}`, as `Some(<value>),<precision>,<scale>` |
| ScalarProps.DisplayStructDropsExtraValues | datafusion/common/src/scalar.rs:1852-1863 | values and field names are zipped: a struct with more values than fields displays as the struct cut to its fields |
| ScalarProps.DisplayFieldsPrefix | datafusion/common/src/scalar.rs:1852-1863 | the `name:value` parts depend only on the first `|fields|` values |
| DFErrors.NatToStringInjective | datafusion/common/src/scalar.rs:1782-1868 | the decimal numeral of a natural number determines the number |
| DFErrors.PrefixedNumeralInjective | datafusion/core/src/logical_plan/builder.rs:169-182 | `prefix` followed by a numeral determines the numeral's number |
| Builder.RowTypes | datafusion/core/src/logical_plan/builder.rs:149-167 | checks the cells of one row from column j on against the types seen so far; on success one type per remaining column is appended; `RowTypesSpec` and `RowTypesFirstClash` state which error it reports |
| Builder.InferTypes | datafusion/core/src/logical_plan/builder.rs:140-168 | walks the rows from i on, reporting the first row of the wrong width or the first type clash; on success one type per column; `InferTypesSpec` and `InferredTypes` characterise it |
| Builder.ValuesFields | datafusion/core/src/logical_plan/builder.rs:169-182 | one nullable, unqualified field per column named `column1`, `column2`, ... of the inferred type, Utf8 for an all-null column; `ValuesCharacterised` and `ValuesNamesDistinct` state it |
| Builder.ValuesSpec | datafusion/core/src/logical_plan/builder.rs:123-189 | the whole of `LogicalPlanBuilder::values`: its errors (empty, zero width, ragged row, type clash, failed schema, failed null fill) and its plan; `BuildValues` is proved equal to it and `ValuesCharacterised`, `ValuesColumn`, `ValuesCells`, `RaggedRowReported` and `TypeClashReported` state what it yields |
| Builder.BuildValues | datafusion/core/src/logical_plan/builder.rs:123-189 | the loops over rows, the type inference and the null back-filling compute exactly the builder's result: an error for an empty list or a zero-width first row, the first row-length or type error, the missing-null-scalar error, or the VALUES plan with inferred fields and filled rows |
| Builder.InferColumnTypes | datafusion/core/src/logical_plan/builder.rs:133-168 | the row loop yields the row-by-row inference, and on success it lists exactly the positions of the null literals |
| Builder.ScanRow | datafusion/core/src/logical_plan/builder.rs:149-167 | the column loop of one row yields the inference step for that row and lists exactly that row's null positions |
| Builder.FillNulls | datafusion/core/src/logical_plan/builder.rs:169-185 | filling the null holes succeeds exactly when every hole's column type has a typed null, and then yields the filled rows |
| ValuesProps.RowTypesSpec | datafusion/core/src/logical_plan/builder.rs:149-167 | a row's step succeeds exactly when every cell is null, or the cell's type agrees with the column's type so far, and it then yields the stepped column types |
| ValuesProps.RowStep | datafusion/core/src/logical_plan/builder.rs:149-167 | a row's step succeeds exactly when the types of every column still agree after that row, and it keeps the column types consistent |
| ValuesProps.InferTypesSpec | datafusion/core/src/logical_plan/builder.rs:140-168 | inference succeeds exactly when every row has the first row's width and every column's non-null cells have one type |
| ValuesProps.InferredTypes | datafusion/core/src/logical_plan/builder.rs:133-182 | from the start, inference succeeds exactly on rectangular, type-consistent rows, and its fields are the declared ones |
| ValuesProps.ValuesCharacterised | datafusion/core/src/logical_plan/builder.rs:123-189 | `values` succeeds exactly when the rows are non-empty and rectangular, the types agree, every hole can be typed and the schema validates; the plan then has the declared schema and the filled rows |
| ValuesProps.ValuesColumn | datafusion/core/src/logical_plan/builder.rs:169-182 | column j is unqualified, named `column{j+1}` and nullable; it has the type of every non-null cell in it, or Utf8 when all its cells are null |
| ValuesProps.ValuesCells | datafusion/core/src/logical_plan/builder.rs:183-185 | non-null cells are kept, and each null cell becomes a null of its column's type |
| ValuesProps.ValuesNamesDistinct | datafusion/core/src/logical_plan/builder.rs:169-182 | the generated column names are pairwise distinct |
| ValuesProps.RaggedRowReported | datafusion/core/src/logical_plan/builder.rs:140-148 | the first row whose width differs from the first row's is reported with its width, its index and the expected width |
| ValuesProps.TypeClashReported | datafusion/core/src/logical_plan/builder.rs:149-167 | after well-typed rows, the first cell of a row whose type differs from a non-null cell above it is reported by its row and column |
| ValuesProps.RowTypesFirstClash | datafusion/core/src/logical_plan/builder.rs:149-167 | within a row, the first cell that does not fit its column type decides the error, naming the row and that column |
| Builder.JoinFields | datafusion/core/src/logical_plan/builder.rs:776-786 | left fields then right fields for inner, left, full and right joins, the left fields alone for semi and anti joins; used by `BuildJoinSchema` |
| Builder.BuildJoinSchema | datafusion/core/src/logical_plan/builder.rs:771-792 | the join schema holds the left fields followed by the right fields for inner, left, right and full joins, and only the left fields for semi and anti joins; a validation error is passed through; the metadata keys are those of both sides, with the right side's value winning on a clash |
| Builder.ValidateUniqueNames | datafusion/core/src/logical_plan/builder.rs:795-819 | succeeds exactly when every expression has a name and no two share one; an error is the first failing name or the first duplicate, reported with both positions |
| Builder.FailureBreaksUniqueness | datafusion/core/src/logical_plan/builder.rs:795-819 | whichever error the check reports, the names are not unique |
| Builder.ColumnIndexAliased | datafusion/core/src/logical_plan/builder.rs:827-835 | one expression per input, aliases and columns kept and every other expression aliased `column<i>`; `ColumnIndexAliasNames` and `ColumnIndexAliasIdempotent` state it |
| Builder.ProjectWithColumnIndexAlias | datafusion/core/src/logical_plan/builder.rs:821-842 | the projection keeps the input, schema and alias and the number of expressions; columns and aliases stay as they are, and every other expression at 0-based position i is aliased `column{i}` |
| BuilderProps.ColumnIndexAliasIdempotent | datafusion/core/src/logical_plan/builder.rs:821-842 | aliasing by column index twice is the same as aliasing once |
| BuilderProps.ColumnIndexAliasNames | datafusion/core/src/logical_plan/builder.rs:821-842 | after aliasing, every expression is a column or an alias |
| BuilderProps.GeneratedAliasesDistinct | datafusion/core/src/logical_plan/builder.rs:821-842 | the aliases it generates are pairwise distinct |
| Builder.UnionInputs | datafusion/core/src/logical_plan/builder.rs:851-856 | a union contributes its inputs and any other plan itself; used by `UnionCharacterised` |
| Builder.UnionWithAlias | datafusion/core/src/logical_plan/builder.rs:845-893 | `union_with_alias`: the first incompatible input's error, or a union of the flattened, re-aliased inputs under the first input's schema with the alias applied; `UnionCharacterised`, `UnionReportsFirstIncompatible`, `UnionOfPlainInputs` and `UnionOfFour` state it |
| Builder.UnionPlans | datafusion/core/src/logical_plan/builder.rs:438-440 | `LogicalPlanBuilder::union` is `union_with_alias` without an alias |
| Builder.FirstIncompatible | datafusion/core/src/logical_plan/builder.rs:858-865 | there is no incompatibility error exactly when every input is compatible with the union's schema |
| Builder.CollectResults | datafusion/core/src/logical_plan/builder.rs:474-579 | the normalised join keys are collected exactly when every normalisation succeeds, in their order |
| BuilderProps.UnionCharacterised | datafusion/core/src/logical_plan/builder.rs:845-893 | a union succeeds exactly when the flattened inputs are not empty and each input after the first is compatible with the left schema; it then holds the flattened inputs in order, projections re-aliased by position under the left schema, keeps the alias, and takes the first input's schema requalified by the alias (or with qualifiers stripped) |
| BuilderProps.UnionReportsFirstIncompatible | datafusion/core/src/logical_plan/builder.rs:858-865 | an incompatible input is reported as the first one in order |
| BuilderProps.FirstIncompatibleAt | datafusion/core/src/logical_plan/builder.rs:858-865 | the incompatibility search finds the first failing input |
| BuilderProps.UnionOfPlainInputs | datafusion/core/src/logical_plan/builder.rs:438-440 | inputs that are not projections and are all compatible unite into the concatenation of both sides' inputs |
| BuilderProps.UnionOfFour | datafusion/core/src/logical_plan/builder.rs:1055-1079 | chaining the union of four plain plans flattens to one union with the four inputs in order |
| Builder.JoinDetailed | datafusion/core/src/logical_plan/builder.rs:474-579 | key lists of different lengths are rejected before anything else; a successful join keeps both inputs, the join type and the null-equality flag, and pairs the normalised keys in order |
| Builder.JoinDetailedSucceeds | datafusion/core/src/logical_plan/builder.rs:474-579 | keys of equal length that all resolve, with a valid join schema, always give a join |
| Builder.InsertByKeyLen | datafusion/core/src/logical_plan/builder.rs:265-265 | one insertion step of the stable sort by key length; `InsertKeepsOrder`, `InsertMultiset`, `InsertSorted` and `InsertBounded` state it |
| Builder.StableSortByKeyLen | datafusion/core/src/logical_plan/builder.rs:265-265 | `sort_by` on key length; `SortSorts` and `SortIsStable` prove it sorted, a permutation and stable |
| Builder.Reverse | datafusion/core/src/logical_plan/builder.rs:266-266 | `reverse`; `ReverseFacts` and `ReverseAppend` state it |
| BuilderProps.InsertKeepsOrder | datafusion/core/src/logical_plan/builder.rs:255-276 | inserting a group keeps the relative order of the groups with each key length |
| BuilderProps.SortIsStable | datafusion/core/src/logical_plan/builder.rs:255-276 | sorting by sort-key length is stable |
| BuilderProps.SortSorts | datafusion/core/src/logical_plan/builder.rs:255-276 | the sort yields ascending key lengths and is a permutation |
| BuilderProps.InsertMultiset | datafusion/core/src/logical_plan/builder.rs:255-276 | an insertion adds exactly the inserted group |
| BuilderProps.InsertSorted | datafusion/core/src/logical_plan/builder.rs:255-276 | an insertion keeps the key lengths ascending |
| BuilderProps.InsertBounded | datafusion/core/src/logical_plan/builder.rs:255-276 | an insertion keeps every key length under a bound that holds for the inputs |
| BuilderProps.WithKeyLenAppend | datafusion/core/src/logical_plan/builder.rs:255-276 | selecting the groups of one key length distributes over concatenation |
| BuilderProps.ReverseFacts | datafusion/core/src/logical_plan/builder.rs:255-276 | the reversal maps index i to index n-1-i and is a permutation |
| BuilderProps.ReverseAppend | datafusion/core/src/logical_plan/builder.rs:255-276 | reversing a concatenation concatenates the reversals in the other order |
| BuilderProps.WithKeyLenReverse | datafusion/core/src/logical_plan/builder.rs:255-276 | selecting by key length commutes with reversal |
| Builder.WindowGroupOrder | datafusion/core/src/logical_plan/builder.rs:265-266 | the nesting order of the window groups; `WindowGroupOrderSpec` proves it longest key first, a permutation, ties in reverse input order |
| Builder.NestWindows | datafusion/core/src/logical_plan/builder.rs:267-275 | wraps the input in one window node per group in order, stopping at the first error; `WindowPlan` is proved equal to it and `NestWindowsStopsAtError` states the error case |
| BuilderProps.WindowGroupOrderSpec | datafusion/core/src/logical_plan/builder.rs:255-276 | the nesting order is a permutation of the groups; longer sort keys come first; groups with equal key lengths come in reverse order |
| Builder.WindowPlan | datafusion/core/src/logical_plan/builder.rs:255-276 | the loop nests one window per group, in the order that `WindowGroupOrderSpec` describes, and stops at the first failure |
| Builder.NestWindowsStopsAtError | datafusion/core/src/logical_plan/builder.rs:267-274 | when a prefix of the groups already fails, the whole nesting fails with that error |
| OptimizerUtils.FlattenWhenThen | datafusion/core/src/optimizer/utils.rs:291-311 | the WHEN/THEN pairs are flattened to alternate positions 2k and 2k+1 |
| OptimizerUtils.MarkerPosition | datafusion/core/src/optimizer/utils.rs:363-386 | finds the first occurrence of a marker literal, or reports that there is none |
| OptimizerUtils.SubExpressions | datafusion/core/src/optimizer/utils.rs:252-338 | `expr_sub_expressions`: the children of an expression, CASE and window functions with marker literals, an error for wildcards and GROUPING SETS; its partner is `Rewrite`, through `PositionalRoundTrip`, `CaseRoundTrip`, `WindowRoundTrip`, `LeavesHaveNoChildren` and `InvalidNodesFailBothWays` |
| OptimizerUtils.Rewrite | datafusion/core/src/optimizer/utils.rs:343-519 | `rewrite_expression`: rebuilds an expression from a list of children; `RewriteExpression` is proved equal to it and the round-trip lemmas, `CubeRebuiltAsRollup`, `BetweenRebuiltAsRange` and `OpaqueNodesIgnoreChildren` state what it does |
| OptimizerUtils.RebuiltWindow | datafusion/core/src/optimizer/utils.rs:360-402 | splits a window function's children at the partition and sort markers; `WindowListRebuilt`, `WindowRebuildDecomposes`, `WindowRebuildErrors` and `WindowMarkersOutOfOrder` state its results |
| OptimizerUtils.RebuiltCase | datafusion/core/src/optimizer/utils.rs:423-458 | scans a CASE's children for base, when/then pairs and else; `RewriteCase` is proved equal to it and `ScanPairs`, `CaseRoundTrip` and `CaseMarkerOperandMisread` state its results |
| OptimizerProps.PositionalRoundTrip | datafusion/core/src/optimizer/utils.rs:252-519 | every node whose children are positional is rebuilt from its own sub-expressions as itself |
| OptimizerProps.LeavesHaveNoChildren | datafusion/core/src/optimizer/utils.rs:312-312 | columns, literals and scalar variables have no sub-expressions |
| OptimizerProps.OpaqueNodesIgnoreChildren | datafusion/core/src/optimizer/utils.rs:472-478 | leaves, IN lists and subqueries are rebuilt as themselves whatever list is given |
| OptimizerProps.InvalidNodesFailBothWays | datafusion/core/src/optimizer/utils.rs:270-337 | wildcards and `GROUPING SETS` fail with the same error in both directions |
| OptimizerProps.CubeRebuiltAsRollup | datafusion/core/src/optimizer/utils.rs:412-422 | CUBE decomposes into its expressions but is rebuilt as ROLLUP, as the code is written, so it is not rebuilt as itself |
| OptimizerProps.BetweenRebuiltAsRange | datafusion/core/src/optimizer/utils.rs:486-506 | BETWEEN is rebuilt as `x >= low AND x <= high`, negated with NOT when negated, and never as itself |
| OptimizerProps.CaseDecompositionEven | datafusion/core/src/optimizer/utils.rs:291-311 | a CASE decomposes into a list of even length |
| OptimizerUtils.RewriteCase | datafusion/core/src/optimizer/utils.rs:423-458 | the while loop over the list computes the marker scan of the CASE rebuild |
| OptimizerUtils.RewriteExpression | datafusion/core/src/optimizer/utils.rs:343-519 | the method computes the rebuild of an expression from a list |
| OptimizerProps.ScanPairs | datafusion/core/src/optimizer/utils.rs:429-451 | the scan collects ordinary WHEN/THEN pairs in order |
| OptimizerProps.CaseRoundTrip | datafusion/core/src/optimizer/utils.rs:291-311 | a CASE whose WHEN expressions are not marker literals is rebuilt from its decomposition as itself |
| OptimizerProps.CaseMarkerOperandMisread | datafusion/core/src/optimizer/utils.rs:429-451 | a WHEN that is the CASE marker literal is read back as the base expression |
| OptimizerProps.WindowRoundTrip | datafusion/core/src/optimizer/utils.rs:277-290 | a window function whose arguments and partitions contain no marker is rebuilt from its decomposition as itself |
| OptimizerProps.WindowListRebuilt | datafusion/core/src/optimizer/utils.rs:360-402 | arguments, partition marker, partitions, sort marker and sort keys rebuild the window function |
| OptimizerProps.FirstMarkerAt | datafusion/core/src/optimizer/utils.rs:363-386 | the marker search finds the first occurrence |
| OptimizerProps.WindowRebuildDecomposes | datafusion/core/src/optimizer/utils.rs:360-402 | a successful window rebuild decomposes back into the list it came from |
| OptimizerProps.WindowRebuildErrors | datafusion/core/src/optimizer/utils.rs:363-392 | a missing partition marker, and then a missing sort marker, are reported as such |
| OptimizerProps.WindowMarkersOutOfOrder | datafusion/core/src/optimizer/utils.rs:388-392 | a sort marker that comes before the first partition marker gives the "partition index too large" error |
| OptimizerUtils.Conjuncts | datafusion/core/src/optimizer/utils.rs:522-537 | conjunct splitting yields at least one part, and no part is an AND or an alias |
| OptimizerUtils.PredicateList.constructor | datafusion/core/src/optimizer/utils.rs:522-537 | the list starts with the given predicates |
| OptimizerUtils.PredicateList.SplitConjunction | datafusion/core/src/optimizer/utils.rs:522-537 | appends exactly the conjuncts of the predicate to the list |
| OptimizerUtils.AddFilter | datafusion/core/src/optimizer/utils.rs:541-554 | fails (an index out of bounds) exactly on an empty predicate list; otherwise it is a Filter over the plan |
| OptimizerUtils.FoldAnd | datafusion/core/src/optimizer/utils.rs:541-554 | the predicates joined with AND from the left; `ConjunctsOfFold` and `AddFilterSplitRoundTrip` prove splitting it gives the predicates back |
| OptimizerProps.ConjunctsOfFold | datafusion/core/src/optimizer/utils.rs:541-554 | the conjuncts of the AND-fold are those of the first part followed by the rest |
| OptimizerProps.AddFilterSplitRoundTrip | datafusion/core/src/optimizer/utils.rs:522-554 | splitting the filter that `add_filter` builds returns its predicates |
| OptimizerProps.SplitFilterSplit | datafusion/core/src/optimizer/utils.rs:522-554 | splitting, filtering and splitting again gives the first split |
| OptimizerUtils.ChunksExact | datafusion/core/src/optimizer/utils.rs:96-102 | every chunk has exactly the chunk width |
| OptimizerProps.ChunksExactCount | datafusion/core/src/optimizer/utils.rs:96-102 | the number of chunks is the whole number of widths in the list, and the remainder is dropped |
| OptimizerProps.ChunksExactRows | datafusion/core/src/optimizer/utils.rs:96-102 | chunk k is the slice from k·w to k·w+w |
| OptimizerProps.ChunksOfConcat | datafusion/core/src/optimizer/utils.rs:96-102 | rows of the chunk width, concatenated and cut again, are returned unchanged |
| OptimizerUtils.FromPlan | datafusion/core/src/optimizer/utils.rs:82-248 | `from_plan`: a plan node of the same kind rebuilt with new expressions and inputs; the `FromPlan*` lemmas state it node by node |
| OptimizerUtils.Leaf | datafusion/core/src/optimizer/utils.rs:236-247 | a leaf plan is returned unchanged exactly when no expressions and no inputs are given; otherwise the assertion fails |
| OptimizerProps.FromPlanValues | datafusion/core/src/optimizer/utils.rs:96-102 | VALUES is rebuilt (when its schema has fields) from the list cut into rows of the schema width, and its own rows, concatenated, rebuild it |
| OptimizerProps.FromPlanAggregate | datafusion/core/src/optimizer/utils.rs:131-138 | an aggregate splits the list at the number of group expressions, takes the first input, and is rebuilt from its own parts as itself |
| OptimizerProps.FromPlanWindow | datafusion/core/src/optimizer/utils.rs:122-130 | a window takes the first window-expression count of the list and the first input, and is rebuilt from its own parts as itself |
| OptimizerProps.FromPlanSingleInput | datafusion/core/src/optimizer/utils.rs:88-186 | projection, filter, sort and limit take the first input (a filter also takes the first expression) and are rebuilt from their own parts as themselves |
| OptimizerProps.FromPlanUnion | datafusion/core/src/optimizer/utils.rs:206-212 | a union takes all new inputs and keeps its schema and alias |
| OptimizerProps.FromPlanJoin | datafusion/core/src/optimizer/utils.rs:143-161 | a join takes the first two inputs and recomputes its schema, failing when it has fewer than two inputs or the schema does not validate |
| OptimizerProps.FromPlanNoExpressions | datafusion/core/src/optimizer/utils.rs:222-247 | explain and the leaf plans are returned unchanged exactly when no expressions and no inputs are given |

## Left out

In scalar.rs:

- Hash, Debug, and all conversions to and from Arrow arrays: `to_array`,
  `to_array_of_size`, `iter_to_array`, `try_from_array` and `eq_array`. They
  need the Arrow columnar format, which is not modelled.
- Float payloads are bit patterns, and their decimal text is a parameter
  (`f32Text`/`f64Text`). Float arithmetic and float formatting are not
  modelled.
- The `{:?}` texts in error messages and in `Display` are replaced by fixed
  texts. Only the kind of error and the row and column numbers are kept.
- Scalar.TypedNull: covers `TryFrom<&DataType>` for the types the model
  has. The Arrow types outside the model are not listed.
- ScalarProps.NegateFailsOn: negating the minimum of a signed integer is
  modelled as a panic, which is what Rust does in a debug build. A release
  build would wrap around.

In builder.rs:

- `Expr::get_type`, `Expr::name`, schema validation, type compatibility,
  the join column normalisation and `LogicalPlanBuilder::window` belong to
  code outside this model. They are parameters.
- Builder.WindowPlan: the grouping of window expressions by sort keys
  (`group_window_expr_by_sort_keys`) is an input, not modelled.
- The other builder operations (`scan`, `sort`, `aggregate`, `distinct`,
  `explain`, `join_using`, `cross_join`, `limit`, and so on) are not part of
  the named core.
- Builder.BuildJoinSchema: the field-name uniqueness check of the new
  schema is the `validate` parameter.
- The `Arc` and `Box` sharing of plans is modelled by values. Plan identity
  and aliasing are not observable.

In utils.rs:

- `from_plan` is not modelled for CrossJoin, SubqueryAlias or Extension
  nodes, and `optimize_children` is not modelled. Their bodies call into
  code outside this model: `Extension::from_template`, and the optimizer
  rules themselves.
- The Repartition branch keeps the partitioning scheme as a summary; a
  hash scheme takes its expressions from the list.
- The `assert!` checks of the Analyze, Explain and leaf branches are `Err`
  results with a fixed message.
- `split_conjunction` pushes references in Rust; the model appends values.
- Integers that are `usize` in Rust are `U64` in the model.
