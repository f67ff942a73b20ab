/**
 * Helpers of the logical plan builder: the VALUES relation with its type
 * inference and null back-filling, the join output schema, duplicate-name
 * validation, positional column aliasing, UNION flattening, the key-length
 * check of a join and the nesting order of window groups.
 *
 * Calls into code outside this model are parameters: `typeOf` is
 * `Expr::get_type` against the empty schema, `nameOf` is `Expr::name`,
 * `debug` is the `{:?}` rendering of an expression, `validate` is the
 * field check of `DFSchema::new_with_metadata`, `compatible` is
 * `DFSchema::check_arrow_schema_type_compatible`, `resolve` is the column
 * normalization of `join_detailed` and `window` is
 * `LogicalPlanBuilder::window(..).build()`.
 */
module Builder {

  import opened DFErrors
  import opened ArrowTypes
  import SV = Scalar
  import opened LogicalPlans

  // ---------------------------------------------------------------------
  // VALUES

  /** `Expr::Literal(ScalarValue::Null)`: a hole whose type is filled in
      from its column. */
  predicate IsNullLiteral(e: Expr)
  {
    e == Literal(SV.Null)
  }

  const EmptyValuesError: DataFusionError := Plan("Values list cannot be empty")
  const ZeroWidthValuesError: DataFusionError := Plan("Values list cannot be zero length")

  function RowLengthError(got: nat, row: nat, expected: nat): DataFusionError
  {
    Plan("Inconsistent data length across values list: got " + NatToString(got) + " values in row "
         + NatToString(row) + " but expected " + NatToString(expected))
  }

  function ColumnTypeError(row: nat, column: nat): DataFusionError
  {
    Plan("Inconsistent data type across values list at row " + NatToString(row) + " column " + NatToString(column))
  }

  /** The column type after cell (i, j): a null keeps the previous type; any
      other cell must have the previous type, if there is one. */
  function CellType(cell: Expr, i: nat, j: nat, prev: Option<DataType>, typeOf: Expr -> Result<DataType>)
    : Result<Option<DataType>>
  {
    if IsNullLiteral(cell) then Ok(prev)
    else
      match typeOf(cell)
      case Err(e) => Err(e)
      case Ok(t) => if prev.Some? && prev.value != t then Err(ColumnTypeError(i, j)) else Ok(Some(t))
  }

  /** The column types after row i, from column j on, appended to `acc`. */
  function RowTypes(row: seq<Expr>, i: nat, j: nat, types: seq<Option<DataType>>, acc: seq<Option<DataType>>,
                    typeOf: Expr -> Result<DataType>): (r: Result<seq<Option<DataType>>>)
    requires j <= |row| == |types|
    ensures r.Ok? ==> |r.value| == |acc| + |row| - j
    decreases |row| - j
  {
    if j == |row| then Ok(acc)
    else
      match CellType(row[j], i, j, types[j], typeOf)
      case Err(e) => Err(e)
      case Ok(t) => RowTypes(row, i, j + 1, types, acc + [t], typeOf)
  }

  /** The column types after the rows from i on, each checked for width n. */
  function InferTypes(values: seq<seq<Expr>>, n: nat, i: nat, types: seq<Option<DataType>>,
                      typeOf: Expr -> Result<DataType>): (r: Result<seq<Option<DataType>>>)
    requires i <= |values| && |types| == n
    ensures r.Ok? ==> |r.value| == n
    decreases |values| - i
  {
    if i == |values| then Ok(types)
    else if |values[i]| != n then Err(RowLengthError(|values[i]|, i, n))
    else
      match RowTypes(values[i], i, 0, types, [], typeOf)
      case Err(e) => Err(e)
      case Ok(next) => InferTypes(values, n, i + 1, next, typeOf)
  }

  function NoTypes(n: nat): (r: seq<Option<DataType>>)
    ensures |r| == n
  {
    seq(n, _ => None)
  }

  /** `format!("column{}", j + 1)`. */
  function ColumnName(j: nat): string
  {
    "column" + NatToString(j + 1)
  }

  /** The schema fields of a VALUES relation: nullable, unqualified,
      `column1`, `column2`, ..., of the inferred type or Utf8. */
  function ValuesFields(types: seq<Option<DataType>>): (fields: seq<DFField>)
    ensures |fields| == |types|
  {
    seq(|types|, j requires 0 <= j < |types| =>
      DFField(None, Field(ColumnName(j), if types[j].Some? then types[j].value else DataType.Utf8, true)))
  }

  /** The type of column j, or Utf8 beyond the schema. */
  function FieldType(fields: seq<DFField>, j: nat): DataType
  {
    if j < |fields| then fields[j].field.dataType else DataType.Utf8
  }

  /** A null hole replaced by the typed null of its column; other cells as they are. */
  function FillCell(cell: Expr, dt: DataType): Expr
  {
    if IsNullLiteral(cell) && SV.TypedNull(dt).Ok? then Literal(SV.TypedNull(dt).value) else cell
  }

  function Filled(values: seq<seq<Expr>>, fields: seq<DFField>): (rows: seq<seq<Expr>>)
    ensures |rows| == |values|
    ensures forall i :: 0 <= i < |values| ==> |rows[i]| == |values[i]|
  {
    seq(|values|, i requires 0 <= i < |values| =>
      seq(|values[i]|, j requires 0 <= j < |values[i]| => FillCell(values[i][j], FieldType(fields, j))))
  }

  /** Some null hole sits in a column whose type has no typed null. */
  predicate NullFillFails(values: seq<seq<Expr>>, fields: seq<DFField>)
  {
    exists i, j :: 0 <= i < |values| && 0 <= j < |values[i]| && IsNullLiteral(values[i][j])
                   && SV.TypedNull(FieldType(fields, j)).Err?
  }

  /** What `LogicalPlanBuilder::values` produces. */
  function ValuesSpec(values: seq<seq<Expr>>, typeOf: Expr -> Result<DataType>,
                      validate: seq<DFField> -> Option<DataFusionError>): Result<LogicalPlan>
  {
    if |values| == 0 then Err(EmptyValuesError)
    else if |values[0]| == 0 then Err(ZeroWidthValuesError)
    else
      match InferTypes(values, |values[0]|, 0, NoTypes(|values[0]|), typeOf)
      case Err(e) => Err(e)
      case Ok(types) =>
        var fields := ValuesFields(types);
        if NullFillFails(values, fields) then Err(SV.NoScalarForType)
        else
          match validate(fields)
          case Some(e) => Err(e)
          case None => Ok(LogicalPlan.Values(DFSchema(fields, map[]), Filled(values, fields)))
  }

  /** The null holes of `values` are exactly the positions listed in `nulls`. */
  predicate NullHoles(values: seq<seq<Expr>>, nRows: nat, nulls: seq<(nat, nat)>)
    requires nRows <= |values|
  {
    (forall m :: 0 <= m < |nulls| ==>
       nulls[m].0 < nRows && nulls[m].1 < |values[nulls[m].0]| && IsNullLiteral(values[nulls[m].0][nulls[m].1]))
    && (forall r, c :: 0 <= r < nRows && 0 <= c < |values[r]| && IsNullLiteral(values[r][c]) ==> (r, c) in nulls)
  }

  /** Adding the holes of row i keeps the list of holes exact. */
  lemma NullHolesExtend(values: seq<seq<Expr>>, i: nat, nulls: seq<(nat, nat)>, holes: seq<nat>,
                         rowNulls: seq<(nat, nat)>)
    requires i < |values| && NullHoles(values, i, nulls)
    requires |rowNulls| == |holes| && forall m :: 0 <= m < |holes| ==> rowNulls[m] == (i, holes[m])
    requires forall m :: 0 <= m < |holes| ==> holes[m] < |values[i]| && IsNullLiteral(values[i][holes[m]])
    requires forall c :: 0 <= c < |values[i]| && IsNullLiteral(values[i][c]) ==> c in holes
    ensures NullHoles(values, i + 1, nulls + rowNulls)
  {
    forall c | 0 <= c < |values[i]| && IsNullLiteral(values[i][c]) ensures (i, c) in rowNulls {
      var m :| 0 <= m < |holes| && holes[m] == c;
      assert rowNulls[m] == (i, c);
    }
  }

  /** One row of `LogicalPlanBuilder::values`: the new column types, and
      the columns of the row's null holes. */
  method ScanRow(row: seq<Expr>, i: nat, fieldTypes: seq<Option<DataType>>, typeOf: Expr -> Result<DataType>)
    returns (r: Result<seq<Option<DataType>>>, holes: seq<nat>)
    requires |row| == |fieldTypes|
    ensures r == RowTypes(row, i, 0, fieldTypes, [], typeOf)
    ensures r.Ok? ==> forall m :: 0 <= m < |holes| ==> holes[m] < |row| && IsNullLiteral(row[holes[m]])
    ensures r.Ok? ==> forall c :: 0 <= c < |row| && IsNullLiteral(row[c]) ==> c in holes
  {
    var newTypes: seq<Option<DataType>> := [];
    holes := [];
    var j := 0;
    while j < |row|
      invariant 0 <= j <= |row| && |newTypes| == j
      invariant RowTypes(row, i, 0, fieldTypes, [], typeOf) == RowTypes(row, i, j, fieldTypes, newTypes, typeOf)
      invariant forall m :: 0 <= m < |holes| ==> holes[m] < j && IsNullLiteral(row[holes[m]])
      invariant forall c :: 0 <= c < j && IsNullLiteral(row[c]) ==> c in holes
    {
      var cell := row[j];
      if IsNullLiteral(cell) {
        holes := holes + [j];
        newTypes := newTypes + [fieldTypes[j]];
      } else {
        var t := typeOf(cell);
        if t.Err? {
          return Err(t.error), holes;
        }
        if fieldTypes[j].Some? && fieldTypes[j].value != t.value {
          return Err(ColumnTypeError(i, j)), holes;
        }
        newTypes := newTypes + [Some(t.value)];
      }
      j := j + 1;
    }
    return Ok(newTypes), holes;
  }

  /** `rows` is `values` with exactly the positions in `done` filled. */
  predicate FilledAt(values: seq<seq<Expr>>, rows: seq<seq<Expr>>, fields: seq<DFField>, done: seq<(nat, nat)>)
  {
    |rows| == |values|
    && (forall r :: 0 <= r < |values| ==> |rows[r]| == |values[r]|)
    && (forall r, c :: 0 <= r < |values| && 0 <= c < |values[r]| ==>
          rows[r][c] == if (r, c) in done then FillCell(values[r][c], FieldType(fields, c)) else values[r][c])
  }

  /** Filling one more hole. */
  lemma FilledAtStep(values: seq<seq<Expr>>, rows: seq<seq<Expr>>, fields: seq<DFField>, done: seq<(nat, nat)>,
                     ri: nat, cj: nat, v: SV.ScalarValue)
    requires FilledAt(values, rows, fields, done)
    requires ri < |values| && cj < |values[ri]| && IsNullLiteral(values[ri][cj])
    requires SV.TypedNull(FieldType(fields, cj)) == Ok(v)
    ensures FilledAt(values, rows[ri := rows[ri][cj := Literal(v)]], fields, done + [(ri, cj)])
  {
  }

  /** Every hole filled: the rows are `Filled`. */
  lemma FilledAtAllHoles(values: seq<seq<Expr>>, rows: seq<seq<Expr>>, fields: seq<DFField>, nulls: seq<(nat, nat)>)
    requires NullHoles(values, |values|, nulls) && FilledAt(values, rows, fields, nulls)
    ensures rows == Filled(values, fields)
  {
    forall r | 0 <= r < |values|
      ensures rows[r] == Filled(values, fields)[r]
    {
      forall c | 0 <= c < |values[r]|
        ensures rows[r][c] == Filled(values, fields)[r][c]
      {
        if !IsNullLiteral(values[r][c]) {
          assert FillCell(values[r][c], FieldType(fields, c)) == values[r][c];
        }
      }
    }
  }

  /** Every hole has a typed null: no fill fails. */
  lemma AllHolesFillable(values: seq<seq<Expr>>, fields: seq<DFField>, nulls: seq<(nat, nat)>)
    requires NullHoles(values, |values|, nulls)
    requires forall m :: 0 <= m < |nulls| ==> SV.TypedNull(FieldType(fields, nulls[m].1)).Ok?
    ensures !NullFillFails(values, fields)
  {
    forall r, c | 0 <= r < |values| && 0 <= c < |values[r]| && IsNullLiteral(values[r][c])
      ensures SV.TypedNull(FieldType(fields, c)).Ok?
    {
      var m :| 0 <= m < |nulls| && nulls[m] == (r, c);
    }
  }

  /** The last step of `LogicalPlanBuilder::values`: overwrite every null
      hole with the typed null of its column's type. */
  method FillNulls(values: seq<seq<Expr>>, nulls: seq<(nat, nat)>, fields: seq<DFField>)
    returns (r: Result<seq<seq<Expr>>>)
    requires NullHoles(values, |values|, nulls)
    ensures r.Ok? <==> !NullFillFails(values, fields)
    ensures r.Ok? ==> r.value == Filled(values, fields)
    ensures r.Err? ==> r.error == SV.NoScalarForType
  {
    var rows := values;
    var k := 0;
    while k < |nulls|
      invariant 0 <= k <= |nulls|
      invariant forall m :: 0 <= m < k ==> SV.TypedNull(FieldType(fields, nulls[m].1)).Ok?
      invariant FilledAt(values, rows, fields, nulls[..k])
    {
      var ri, cj := nulls[k].0, nulls[k].1;
      var filled := SV.TypedNull(FieldType(fields, cj));
      if filled.Err? {
        assert IsNullLiteral(values[ri][cj]);
        return Err(filled.error);
      }
      FilledAtStep(values, rows, fields, nulls[..k], ri, cj, filled.value);
      rows := rows[ri := rows[ri][cj := Literal(filled.value)]];
      assert nulls[..k + 1] == nulls[..k] + [(ri, cj)];
      k := k + 1;
    }
    assert nulls[..k] == nulls;
    AllHolesFillable(values, fields, nulls);
    FilledAtAllHoles(values, rows, fields, nulls);
    return Ok(rows);
  }

  /** The row loop of `LogicalPlanBuilder::values`: every row must have
      `nCols` cells; the column types are inferred row by row and the null
      holes are remembered. */
  method InferColumnTypes(values: seq<seq<Expr>>, nCols: nat, typeOf: Expr -> Result<DataType>)
    returns (r: Result<seq<Option<DataType>>>, nulls: seq<(nat, nat)>)
    ensures r == InferTypes(values, nCols, 0, NoTypes(nCols), typeOf)
    ensures r.Ok? ==> NullHoles(values, |values|, nulls)
  {
    var fieldTypes: seq<Option<DataType>> := [];
    for k := 0 to nCols
      invariant |fieldTypes| == k
      invariant forall c :: 0 <= c < k ==> fieldTypes[c] == None
    {
      fieldTypes := fieldTypes + [None];
    }
    assert fieldTypes == NoTypes(nCols);
    nulls := [];
    var i := 0;
    while i < |values|
      invariant 0 <= i <= |values| && |fieldTypes| == nCols
      invariant InferTypes(values, nCols, 0, NoTypes(nCols), typeOf) == InferTypes(values, nCols, i, fieldTypes, typeOf)
      invariant NullHoles(values, i, nulls)
    {
      var row := values[i];
      if |row| != nCols {
        return Err(RowLengthError(|row|, i, nCols)), nulls;
      }
      var next, holes := ScanRow(row, i, fieldTypes, typeOf);
      if next.Err? {
        return Err(next.error), nulls;
      }
      var rowNulls: seq<(nat, nat)> := seq(|holes|, m requires 0 <= m < |holes| => (i, holes[m]));
      NullHolesExtend(values, i, nulls, holes, rowNulls);
      nulls := nulls + rowNulls;
      fieldTypes := next.value;
      i := i + 1;
    }
    return Ok(fieldTypes), nulls;
  }

  /** `LogicalPlanBuilder::values`: infer the column types, then overwrite
      each null hole with the typed null of its column. */
  method BuildValues(values: seq<seq<Expr>>, typeOf: Expr -> Result<DataType>,
                     validate: seq<DFField> -> Option<DataFusionError>) returns (r: Result<LogicalPlan>)
    ensures r == ValuesSpec(values, typeOf, validate)
  {
    if |values| == 0 {
      return Err(EmptyValuesError);
    }
    var nCols := |values[0]|;
    if nCols == 0 {
      return Err(ZeroWidthValuesError);
    }
    var fieldTypes, nulls := InferColumnTypes(values, nCols, typeOf);
    if fieldTypes.Err? {
      return Err(fieldTypes.error);
    }
    var fields := ValuesFields(fieldTypes.value);
    var rows := FillNulls(values, nulls, fields);
    if rows.Err? {
      return Err(rows.error);
    }
    var invalid := validate(fields);
    if invalid.Some? {
      return Err(invalid.value);
    }
    return Ok(LogicalPlan.Values(DFSchema(fields, map[]), rows.value));
  }

  // ---------------------------------------------------------------------
  // Join schema

  /** `build_join_schema`: the left fields then the right fields (only the
      left ones for semi and anti joins), the left metadata extended by the
      right one. */
  function BuildJoinSchema(left: DFSchema, right: DFSchema, joinType: JoinType,
                           validate: seq<DFField> -> Option<DataFusionError>): (r: Result<DFSchema>)
    ensures r.Ok? <==> validate(JoinFields(left, right, joinType)) == None
    ensures r.Err? ==> r.error == validate(JoinFields(left, right, joinType)).value
    ensures r.Ok? ==> r.value.fields == JoinFields(left, right, joinType)
    ensures r.Ok? ==> r.value.metadata.Keys == left.metadata.Keys + right.metadata.Keys
    ensures r.Ok? ==> forall k :: k in right.metadata ==> r.value.metadata[k] == right.metadata[k]
    ensures r.Ok? ==> forall k :: k in left.metadata && k !in right.metadata ==> r.value.metadata[k] == left.metadata[k]
  {
    var fields := JoinFields(left, right, joinType);
    match validate(fields)
    case Some(e) => Err(e)
    case None => Ok(DFSchema(fields, left.metadata + right.metadata))
  }

  function JoinFields(left: DFSchema, right: DFSchema, joinType: JoinType): seq<DFField>
  {
    match joinType
    case Inner | Left | Full | Right => left.fields + right.fields
    case Semi | Anti => left.fields
  }

  // ---------------------------------------------------------------------
  // Unique expression names

  /** Every expression has a name. */
  predicate AllNamed(exprs: seq<Expr>, nameOf: Expr -> Result<string>)
  {
    forall k :: 0 <= k < |exprs| ==> nameOf(exprs[k]).Ok?
  }

  /** The first `k` expressions have names and no two share one. */
  predicate UniquePrefix(exprs: seq<Expr>, nameOf: Expr -> Result<string>, k: nat)
  {
    k <= |exprs|
    && (forall p :: 0 <= p < k ==> nameOf(exprs[p]).Ok?)
    && (forall p, q :: 0 <= p < q < k ==> nameOf(exprs[p]).value != nameOf(exprs[q]).value)
  }

  function DuplicateNameError(nodeName: string, first: Expr, firstPos: nat, second: Expr, secondPos: nat,
                              debug: Expr -> string): DataFusionError
  {
    Plan(nodeName + " require unique expression names but the expression \"" + debug(first) + "\" at position "
         + NatToString(firstPos) + " and \"" + debug(second) + "\" at position " + NatToString(secondPos)
         + " have the same name. Consider aliasing (\"AS\") one of them.")
  }

  /** Position k is the first failure, with error `e`: either naming it
      fails, or its name is that of an earlier expression. */
  predicate FailsAt(nodeName: string, exprs: seq<Expr>, nameOf: Expr -> Result<string>, debug: Expr -> string,
                    k: nat, e: DataFusionError)
  {
    k < |exprs| && UniquePrefix(exprs, nameOf, k)
    && match nameOf(exprs[k])
       case Err(err) => e == err
       case Ok(name) =>
         exists p :: 0 <= p < k && nameOf(exprs[p]).value == name
                     && e == DuplicateNameError(nodeName, exprs[p], p, exprs[k], k, debug)
  }

  /** A failure at some position rules out uniqueness of the whole list. */
  lemma FailureBreaksUniqueness(nodeName: string, exprs: seq<Expr>, nameOf: Expr -> Result<string>,
                                debug: Expr -> string, k: nat, e: DataFusionError)
    requires FailsAt(nodeName, exprs, nameOf, debug, k, e)
    ensures !UniquePrefix(exprs, nameOf, |exprs|)
  {
    if nameOf(exprs[k]).Ok? {
      var p :| 0 <= p < k && nameOf(exprs[p]).value == nameOf(exprs[k]).value
                && e == DuplicateNameError(nodeName, exprs[p], p, exprs[k], k, debug);
      assert nameOf(exprs[p]).value == nameOf(exprs[k]).value;
    }
  }

  /** A fresh name extends a unique prefix by one. */
  lemma UniquePrefixExtend(exprs: seq<Expr>, nameOf: Expr -> Result<string>, k: nat, names: map<string, (nat, Expr)>)
    requires k < |exprs| && UniquePrefix(exprs, nameOf, k) && nameOf(exprs[k]).Ok?
    requires forall p :: 0 <= p < k ==> nameOf(exprs[p]).value in names
    requires nameOf(exprs[k]).value !in names
    ensures UniquePrefix(exprs, nameOf, k + 1)
  {
  }

  /** The map of `validate_unique_names` after `k` steps: each name of the
      first `k` expressions, with its first position and expression. */
  predicate NamesIndexed(names: map<string, (nat, Expr)>, exprs: seq<Expr>, nameOf: Expr -> Result<string>, k: nat)
    requires UniquePrefix(exprs, nameOf, k)
  {
    (forall name :: name in names ==>
       names[name].0 < k && nameOf(exprs[names[name].0]) == Ok(name) && names[name].1 == exprs[names[name].0])
    && (forall p :: 0 <= p < k ==> nameOf(exprs[p]).value in names)
  }

  lemma NamesIndexedExtend(names: map<string, (nat, Expr)>, exprs: seq<Expr>, nameOf: Expr -> Result<string>, k: nat)
    requires k < |exprs| && UniquePrefix(exprs, nameOf, k) && NamesIndexed(names, exprs, nameOf, k)
    requires nameOf(exprs[k]).Ok? && nameOf(exprs[k]).value !in names
    ensures UniquePrefix(exprs, nameOf, k + 1)
    ensures NamesIndexed(names[nameOf(exprs[k]).value := (k, exprs[k])], exprs, nameOf, k + 1)
  {
    UniquePrefixExtend(exprs, nameOf, k, names);
  }

  /** `validate_unique_names`: remember the first position of every name
      in a map; fail on the first name seen twice. */
  method ValidateUniqueNames(nodeName: string, exprs: seq<Expr>, nameOf: Expr -> Result<string>,
                             debug: Expr -> string) returns (r: Result<()>)
    ensures r.Ok? <==> UniquePrefix(exprs, nameOf, |exprs|)
    ensures r.Err? ==> exists k :: 0 <= k < |exprs| && FailsAt(nodeName, exprs, nameOf, debug, k, r.error)
  {
    var uniqueNames: map<string, (nat, Expr)> := map[];
    var position := 0;
    while position < |exprs|
      invariant 0 <= position <= |exprs|
      invariant UniquePrefix(exprs, nameOf, position)
      invariant NamesIndexed(uniqueNames, exprs, nameOf, position)
    {
      var expr := exprs[position];
      var name := nameOf(expr);
      if name.Err? {
        assert FailsAt(nodeName, exprs, nameOf, debug, position, name.error);
        FailureBreaksUniqueness(nodeName, exprs, nameOf, debug, position, name.error);
        return Err(name.error);
      }
      if name.value in uniqueNames {
        var (existingPosition, existingExpr) := uniqueNames[name.value];
        var e := DuplicateNameError(nodeName, existingExpr, existingPosition, expr, position, debug);
        assert nameOf(exprs[existingPosition]).value == name.value;
        assert FailsAt(nodeName, exprs, nameOf, debug, position, e);
        FailureBreaksUniqueness(nodeName, exprs, nameOf, debug, position, e);
        return Err(e);
      }
      NamesIndexedExtend(uniqueNames, exprs, nameOf, position);
      uniqueNames := uniqueNames[name.value := (position, expr)];
      position := position + 1;
    }
    return Ok(());
  }

  // ---------------------------------------------------------------------
  // Positional aliasing and UNION

  /** The expression at 0-based position i, aliased as `column{i}` unless
      it already is an alias or a column. */
  function AliasAt(e: Expr, i: nat): Expr
  {
    match e
    case Alias(_, _) => e
    case Column(_) => e
    case _ => Alias(e, "column" + NatToString(i))
  }

  function ColumnIndexAliased(exprs: seq<Expr>): (r: seq<Expr>)
    ensures |r| == |exprs|
  {
    seq(|exprs|, i requires 0 <= i < |exprs| => AliasAt(exprs[i], i))
  }

  /** `project_with_column_index_alias`. */
  function ProjectWithColumnIndexAlias(exprs: seq<Expr>, input: LogicalPlan, schema: DFSchema,
                                       alias: Option<string>): (r: Result<LogicalPlan>)
    ensures r.Ok? && r.value.Projection?
    ensures r.value.input == input && r.value.schema == schema && r.value.alias == alias
    ensures |r.value.expr| == |exprs|
    ensures forall i :: 0 <= i < |exprs| ==> (exprs[i].Alias? || exprs[i].Column? <==> r.value.expr[i] == exprs[i])
    ensures forall i :: 0 <= i < |exprs| && !exprs[i].Alias? && !exprs[i].Column? ==>
      r.value.expr[i] == Alias(exprs[i], "column" + NatToString(i))
  {
    Ok(Projection(ColumnIndexAliased(exprs), input, schema, alias))
  }

  /** A union contributes its inputs, any other plan itself. */
  function UnionInputs(p: LogicalPlan): seq<LogicalPlan>
  {
    match p
    case Union(inputs, _, _) => inputs
    case _ => [p]
  }

  /** The first compatibility failure among `plans`. */
  function FirstIncompatible(schema: DFSchema, plans: seq<LogicalPlan>,
                             compatible: (DFSchema, DFSchema) -> Option<DataFusionError>): (r: Option<DataFusionError>)
    ensures r.None? <==> forall i :: 0 <= i < |plans| ==> compatible(schema, SchemaOf(plans[i])).None?
    decreases |plans|
  {
    if plans == [] then None
    else
      match compatible(schema, SchemaOf(plans[0]))
      case Some(e) => Some(e)
      case None => FirstIncompatible(schema, plans[1..], compatible)
  }

  /** A projection input re-aliased by position under the union schema. */
  function Realiased(p: LogicalPlan, unionSchema: DFSchema): LogicalPlan
  {
    match p
    case Projection(expr, input, _, alias) => ProjectWithColumnIndexAlias(expr, input, unionSchema, alias).value
    case _ => p
  }

  const EmptyUnionError: DataFusionError := Plan("Empty UNION")

  /** `union_with_alias`. */
  function UnionWithAlias(left: LogicalPlan, right: LogicalPlan, alias: Option<string>,
                          compatible: (DFSchema, DFSchema) -> Option<DataFusionError>): Result<LogicalPlan>
  {
    var unionSchema := SchemaOf(left);
    var flat := UnionInputs(left) + UnionInputs(right);
    var failure := if |flat| <= 1 then None else FirstIncompatible(unionSchema, flat[1..], compatible);
    if failure.Some? then Err(failure.value)
    else
      var inputs := seq(|flat|, i requires 0 <= i < |flat| => Realiased(flat[i], unionSchema));
      if |inputs| == 0 then Err(EmptyUnionError)
      else
        var first := SchemaOf(inputs[0]);
        Ok(Union(inputs, if alias.Some? then ReplaceQualifier(first, alias.value) else StripQualifiers(first), alias))
  }

  /** `LogicalPlanBuilder::union`. */
  function UnionPlans(left: LogicalPlan, right: LogicalPlan,
                      compatible: (DFSchema, DFSchema) -> Option<DataFusionError>): Result<LogicalPlan>
  {
    UnionWithAlias(left, right, None, compatible)
  }

  // ---------------------------------------------------------------------
  // Join

  const JoinKeyLengthError: DataFusionError := Plan("left_keys and right_keys were not the same length")

  /** The first error of a sequence of results, or all their values. */
  function CollectResults<T>(rs: seq<Result<T>>): (r: Result<seq<T>>)
    ensures r.Ok? <==> forall i :: 0 <= i < |rs| ==> rs[i].Ok?
    ensures r.Ok? ==> |r.value| == |rs| && forall i :: 0 <= i < |rs| ==> r.value[i] == rs[i].value
    decreases |rs|
  {
    if rs == [] then Ok([])
    else
      match rs[0]
      case Err(e) => Err(e)
      case Ok(v) =>
        match CollectResults(rs[1..])
        case Err(e) => Err(e)
        case Ok(vs) => Ok([v] + vs)
  }

  /** `LogicalPlanBuilder::join_detailed`: the keys must pair up; each pair
      is normalized against the two inputs (by `resolve`), the left keys'
      errors first, then the right keys'. */
  function JoinDetailed(left: LogicalPlan, right: LogicalPlan, joinType: JoinType,
                        leftKeys: seq<QualifiedColumn>, rightKeys: seq<QualifiedColumn>, nullEqualsNull: bool,
                        resolve: (QualifiedColumn, QualifiedColumn) -> (Result<QualifiedColumn>, Result<QualifiedColumn>),
                        validate: seq<DFField> -> Option<DataFusionError>): (r: Result<LogicalPlan>)
    ensures |leftKeys| != |rightKeys| ==> r == Err(JoinKeyLengthError)
    ensures r.Ok? ==> (r.value.Join? && r.value.left == left && r.value.right == right
      && r.value.joinType == joinType && r.value.joinConstraint == On && r.value.nullEqualsNull == nullEqualsNull
      && |r.value.on| == |leftKeys|
      && BuildJoinSchema(SchemaOf(left), SchemaOf(right), joinType, validate) == Ok(r.value.schema))
    ensures r.Ok? ==> forall i :: 0 <= i < |leftKeys| ==>
      resolve(leftKeys[i], rightKeys[i]) == (Ok(r.value.on[i].0), Ok(r.value.on[i].1))
  {
    if |leftKeys| != |rightKeys| then Err(JoinKeyLengthError)
    else
      var lefts := seq(|leftKeys|, i requires 0 <= i < |leftKeys| => resolve(leftKeys[i], rightKeys[i]).0);
      var rights := seq(|leftKeys|, i requires 0 <= i < |leftKeys| => resolve(leftKeys[i], rightKeys[i]).1);
      match CollectResults(lefts)
      case Err(e) => Err(e)
      case Ok(ls) =>
        match CollectResults(rights)
        case Err(e) => Err(e)
        case Ok(rs) =>
          match BuildJoinSchema(SchemaOf(left), SchemaOf(right), joinType, validate)
          case Err(e) => Err(e)
          case Ok(schema) =>
            Ok(Join(left, right, seq(|ls|, i requires 0 <= i < |ls| => (ls[i], rs[i])), joinType, On, schema,
                    nullEqualsNull))
  }

  /** A join is built whenever the keys pair up, every key resolves and
      the joined schema is valid (the converse is part of `JoinDetailed`'s
      contract). */
  lemma JoinDetailedSucceeds(left: LogicalPlan, right: LogicalPlan, joinType: JoinType,
                             leftKeys: seq<QualifiedColumn>, rightKeys: seq<QualifiedColumn>, nullEqualsNull: bool,
                             resolve: (QualifiedColumn, QualifiedColumn) -> (Result<QualifiedColumn>, Result<QualifiedColumn>),
                             validate: seq<DFField> -> Option<DataFusionError>)
    requires |leftKeys| == |rightKeys|
    requires forall i :: 0 <= i < |leftKeys| ==> resolve(leftKeys[i], rightKeys[i]).0.Ok?
    requires forall i :: 0 <= i < |leftKeys| ==> resolve(leftKeys[i], rightKeys[i]).1.Ok?
    requires validate(JoinFields(SchemaOf(left), SchemaOf(right), joinType)).None?
    ensures JoinDetailed(left, right, joinType, leftKeys, rightKeys, nullEqualsNull, resolve, validate).Ok?
  {
    var lefts := seq(|leftKeys|, i requires 0 <= i < |leftKeys| => resolve(leftKeys[i], rightKeys[i]).0);
    var rights := seq(|leftKeys|, i requires 0 <= i < |leftKeys| => resolve(leftKeys[i], rightKeys[i]).1);
    assert CollectResults(lefts).Ok? by {
      assert forall i :: 0 <= i < |lefts| ==> lefts[i] == resolve(leftKeys[i], rightKeys[i]).0;
    }
    assert CollectResults(rights).Ok? by {
      assert forall i :: 0 <= i < |rights| ==> rights[i] == resolve(leftKeys[i], rightKeys[i]).1;
    }
  }

  // ---------------------------------------------------------------------
  // Window groups

  /** A group of window expressions sharing one sort key. */
  datatype WindowGroup = WindowGroup(sortKey: seq<Expr>, exprs: seq<Expr>)

  function KeyLen(g: WindowGroup): nat
  {
    |g.sortKey|
  }

  /** Inserts g after every group whose key is not longer: one step of a
      stable sort by key length. */
  function InsertByKeyLen(sorted: seq<WindowGroup>, g: WindowGroup): (r: seq<WindowGroup>)
    ensures |r| == |sorted| + 1
    decreases |sorted|
  {
    if sorted == [] || KeyLen(sorted[|sorted| - 1]) <= KeyLen(g) then sorted + [g]
    else InsertByKeyLen(sorted[..|sorted| - 1], g) + [sorted[|sorted| - 1]]
  }

  /** `groups.sort_by(|a, b| a.0.len().cmp(&b.0.len()))`, a stable sort. */
  function StableSortByKeyLen(groups: seq<WindowGroup>): (r: seq<WindowGroup>)
    ensures |r| == |groups|
    decreases |groups|
  {
    if groups == [] then []
    else InsertByKeyLen(StableSortByKeyLen(groups[..|groups| - 1]), groups[|groups| - 1])
  }

  function Reverse<T>(s: seq<T>): (r: seq<T>)
    ensures |r| == |s|
    decreases |s|
  {
    if s == [] then [] else Reverse(s[1..]) + [s[0]]
  }

  /** The order in which `window_plan` nests the groups: longest keys
      first, ties in reverse input order. */
  function WindowGroupOrder(groups: seq<WindowGroup>): seq<WindowGroup>
  {
    Reverse(StableSortByKeyLen(groups))
  }

  /** The plans `window_plan` builds from a prefix of the ordered groups. */
  function NestWindows(input: LogicalPlan, ordered: seq<WindowGroup>,
                       window: (LogicalPlan, seq<Expr>) -> Result<LogicalPlan>): Result<LogicalPlan>
    decreases |ordered|
  {
    if ordered == [] then Ok(input)
    else
      match NestWindows(input, ordered[..|ordered| - 1], window)
      case Err(e) => Err(e)
      case Ok(p) => window(p, ordered[|ordered| - 1].exprs)
  }

  /** `LogicalPlanBuilder::window_plan`: wrap the input in one window node
      per group, in `WindowGroupOrder`, the first group innermost. */
  method WindowPlan(input: LogicalPlan, groups: seq<WindowGroup>,
                    window: (LogicalPlan, seq<Expr>) -> Result<LogicalPlan>) returns (r: Result<LogicalPlan>)
    ensures r == NestWindows(input, WindowGroupOrder(groups), window)
  {
    var ordered := WindowGroupOrder(groups);
    var plan := input;
    var k := 0;
    while k < |ordered|
      invariant 0 <= k <= |ordered|
      invariant NestWindows(input, ordered[..k], window) == Ok(plan)
    {
      assert ordered[..k + 1][..k] == ordered[..k];
      var next := window(plan, ordered[k].exprs);
      if next.Err? {
        NestWindowsStopsAtError(input, ordered, k + 1, window);
        return next;
      }
      plan := next.value;
      k := k + 1;
    }
    assert ordered[..k] == ordered;
    return Ok(plan);
  }

  /** Once a prefix fails, every longer prefix fails the same way. */
  lemma {:induction false} NestWindowsStopsAtError(input: LogicalPlan, ordered: seq<WindowGroup>, k: nat,
                                                   window: (LogicalPlan, seq<Expr>) -> Result<LogicalPlan>)
    requires 0 < k <= |ordered|
    requires NestWindows(input, ordered[..k], window).Err?
    ensures NestWindows(input, ordered, window) == NestWindows(input, ordered[..k], window)
    decreases |ordered| - k
  {
    if k < |ordered| {
      assert ordered[..k + 1][..k] == ordered[..k];
      NestWindowsStopsAtError(input, ordered, k + 1, window);
    } else {
      assert ordered[..k] == ordered;
    }
  }
}
