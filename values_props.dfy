/**
 * What a VALUES relation built by `LogicalPlanBuilder::values` is, stated
 * without the row-by-row inference: every row has the width of the first,
 * the non-null cells of a column share one type, that type (or Utf8 for a
 * column of nulls only) is the column's field type, and each null hole is
 * replaced by the typed null of its column.
 */
module ValuesProps {

  import opened DFErrors
  import opened ArrowTypes
  import SV = Scalar
  import ScalarProps
  import opened LogicalPlans
  import opened Builder

  // ---------------------------------------------------------------------
  // One row

  /** Cell `cell` may follow the column type `prev`. */
  predicate CellFits(cell: Expr, prev: Option<DataType>, typeOf: Expr -> Result<DataType>)
  {
    IsNullLiteral(cell) || (typeOf(cell).Ok? && (prev.None? || prev.value == typeOf(cell).value))
  }

  /** The column type after a fitting cell. */
  function StepType(cell: Expr, prev: Option<DataType>, typeOf: Expr -> Result<DataType>): Option<DataType>
    requires CellFits(cell, prev, typeOf)
  {
    if IsNullLiteral(cell) then prev else Some(typeOf(cell).value)
  }

  /** A row's scan succeeds exactly when every cell fits its column, and
      then yields the stepped column types. */
  lemma {:induction false} RowTypesSpec(row: seq<Expr>, i: nat, j: nat, types: seq<Option<DataType>>,
                                        acc: seq<Option<DataType>>, typeOf: Expr -> Result<DataType>)
    requires j <= |row| == |types|
    ensures RowTypes(row, i, j, types, acc, typeOf).Ok? <==> forall c :: j <= c < |row| ==> CellFits(row[c], types[c], typeOf)
    ensures RowTypes(row, i, j, types, acc, typeOf).Ok? ==>
      RowTypes(row, i, j, types, acc, typeOf).value
        == acc + seq(|row| - j, k requires 0 <= k < |row| - j => StepType(row[j + k], types[j + k], typeOf))
    decreases |row| - j
  {
    if j < |row| {
      if CellFits(row[j], types[j], typeOf) {
        var t := StepType(row[j], types[j], typeOf);
        assert CellType(row[j], i, j, types[j], typeOf) == Ok(t);
        RowTypesSpec(row, i, j + 1, types, acc + [t], typeOf);
        if RowTypes(row, i, j, types, acc, typeOf).Ok? {
          var rest := seq(|row| - (j + 1), k requires 0 <= k < |row| - (j + 1) => StepType(row[j + 1 + k], types[j + 1 + k], typeOf));
          var all := seq(|row| - j, k requires 0 <= k < |row| - j => StepType(row[j + k], types[j + k], typeOf));
          assert all == [t] + rest;
        }
      } else {
        assert CellType(row[j], i, j, types[j], typeOf).Err?;
      }
    }
  }

  // ---------------------------------------------------------------------
  // All rows

  /** The first `k` rows have `n` cells each. */
  predicate Rectangular(values: seq<seq<Expr>>, n: nat, k: nat)
  {
    k <= |values| && forall r :: 0 <= r < k ==> |values[r]| == n
  }

  /** The non-null cells of the first `k` rows have types, and those of one
      column agree. */
  predicate TypesAgree(values: seq<seq<Expr>>, n: nat, k: nat, typeOf: Expr -> Result<DataType>)
    requires Rectangular(values, n, k)
  {
    (forall r, c :: 0 <= r < k && 0 <= c < n && !IsNullLiteral(values[r][c]) ==> typeOf(values[r][c]).Ok?)
    && (forall r1, r2, c :: 0 <= r1 < k && 0 <= r2 < k && 0 <= c < n
          && !IsNullLiteral(values[r1][c]) && !IsNullLiteral(values[r2][c])
          ==> typeOf(values[r1][c]) == typeOf(values[r2][c]))
  }

  /** `types` records the first `k` rows: a column is untyped exactly when
      all its cells are null, and typed by its non-null cells otherwise. */
  predicate Consistent(values: seq<seq<Expr>>, n: nat, k: nat, types: seq<Option<DataType>>,
                       typeOf: Expr -> Result<DataType>)
    requires Rectangular(values, n, k)
  {
    |types| == n
    && (forall c :: 0 <= c < n ==> (types[c].None? <==> forall r :: 0 <= r < k ==> IsNullLiteral(values[r][c])))
    && (forall r, c :: 0 <= r < k && 0 <= c < n && !IsNullLiteral(values[r][c]) ==>
          typeOf(values[r][c]).Ok? && types[c] == Some(typeOf(values[r][c]).value))
  }

  /** Scanning row k keeps `Consistent` and `TypesAgree`. */
  lemma RowStep(values: seq<seq<Expr>>, n: nat, k: nat, types: seq<Option<DataType>>, typeOf: Expr -> Result<DataType>)
    requires k < |values| && |values[k]| == n && Rectangular(values, n, k)
    requires Consistent(values, n, k, types, typeOf) && TypesAgree(values, n, k, typeOf)
    ensures RowTypes(values[k], k, 0, types, [], typeOf).Ok? <==> TypesAgree(values, n, k + 1, typeOf)
    ensures RowTypes(values[k], k, 0, types, [], typeOf).Ok? ==>
      Consistent(values, n, k + 1, RowTypes(values[k], k, 0, types, [], typeOf).value, typeOf)
  {
    RowTypesSpec(values[k], k, 0, types, [], typeOf);
    if forall c :: 0 <= c < n ==> CellFits(values[k][c], types[c], typeOf) {
      RowStepFits(values, n, k, types, typeOf);
    } else {
      RowStepFails(values, n, k, types, typeOf);
    }
  }

  lemma RowStepFits(values: seq<seq<Expr>>, n: nat, k: nat, types: seq<Option<DataType>>, typeOf: Expr -> Result<DataType>)
    requires k < |values| && |values[k]| == n && Rectangular(values, n, k)
    requires Consistent(values, n, k, types, typeOf) && TypesAgree(values, n, k, typeOf)
    requires forall c :: 0 <= c < n ==> CellFits(values[k][c], types[c], typeOf)
    ensures TypesAgree(values, n, k + 1, typeOf)
    ensures Consistent(values, n, k + 1, seq(n, c requires 0 <= c < n => StepType(values[k][c], types[c], typeOf)), typeOf)
  {
    forall r1, r2, c | 0 <= r1 < k + 1 && 0 <= r2 < k + 1 && 0 <= c < n
        && !IsNullLiteral(values[r1][c]) && !IsNullLiteral(values[r2][c])
      ensures typeOf(values[r1][c]) == typeOf(values[r2][c])
    {
    }
  }

  lemma RowStepFails(values: seq<seq<Expr>>, n: nat, k: nat, types: seq<Option<DataType>>, typeOf: Expr -> Result<DataType>)
    requires k < |values| && |values[k]| == n && Rectangular(values, n, k)
    requires Consistent(values, n, k, types, typeOf)
    requires exists c :: 0 <= c < n && !CellFits(values[k][c], types[c], typeOf)
    ensures !TypesAgree(values, n, k + 1, typeOf)
  {
    var c :| 0 <= c < n && !CellFits(values[k][c], types[c], typeOf);
    if typeOf(values[k][c]).Ok? {
      var r :| 0 <= r < k && !IsNullLiteral(values[r][c]);
      assert typeOf(values[r][c]) != typeOf(values[k][c]);
    }
  }

  /** Inference from row k on succeeds exactly when the rows from k on
      have width n and the types agree, and then it is consistent. */
  lemma {:induction false} InferTypesSpec(values: seq<seq<Expr>>, n: nat, k: nat, types: seq<Option<DataType>>,
                                          typeOf: Expr -> Result<DataType>)
    requires k <= |values| && Rectangular(values, n, k)
    requires Consistent(values, n, k, types, typeOf) && TypesAgree(values, n, k, typeOf)
    ensures InferTypes(values, n, k, types, typeOf).Ok? <==>
      Rectangular(values, n, |values|) && TypesAgree(values, n, |values|, typeOf)
    ensures InferTypes(values, n, k, types, typeOf).Ok? ==>
      Rectangular(values, n, |values|) && Consistent(values, n, |values|, InferTypes(values, n, k, types, typeOf).value, typeOf)
    decreases |values| - k
  {
    if k < |values| {
      if |values[k]| == n {
        RowStep(values, n, k, types, typeOf);
        var next := RowTypes(values[k], k, 0, types, [], typeOf);
        if next.Ok? {
          InferTypesSpec(values, n, k + 1, next.value, typeOf);
        } else if Rectangular(values, n, |values|) {
          assert !TypesAgree(values, n, k + 1, typeOf);
          assert !TypesAgree(values, n, |values|, typeOf);
        }
      }
    }
  }

  // ---------------------------------------------------------------------
  // The declarative schema

  /** The type of the first non-null cell of column c from row r on, if any. */
  function FirstCellType(values: seq<seq<Expr>>, c: nat, r: nat, typeOf: Expr -> Result<DataType>): Option<DataType>
    decreases |values| - r
  {
    if r >= |values| then None
    else if c < |values[r]| && !IsNullLiteral(values[r][c]) && typeOf(values[r][c]).Ok? then Some(typeOf(values[r][c]).value)
    else FirstCellType(values, c, r + 1, typeOf)
  }

  /** The schema of a VALUES relation, as the builder documents it. */
  function DeclaredFields(values: seq<seq<Expr>>, typeOf: Expr -> Result<DataType>): (fields: seq<DFField>)
    requires |values| > 0
    ensures |fields| == |values[0]|
  {
    ValuesFields(seq(|values[0]|, c requires 0 <= c < |values[0]| => FirstCellType(values, c, 0, typeOf)))
  }

  lemma {:induction false} FirstCellTypeOfConsistent(values: seq<seq<Expr>>, n: nat, types: seq<Option<DataType>>,
                                                     c: nat, r: nat, typeOf: Expr -> Result<DataType>)
    requires Rectangular(values, n, |values|) && Consistent(values, n, |values|, types, typeOf) && c < n
    requires r <= |values| && forall q :: 0 <= q < r ==> IsNullLiteral(values[q][c])
    ensures FirstCellType(values, c, r, typeOf) == types[c]
    decreases |values| - r
  {
    if r < |values| && IsNullLiteral(values[r][c]) {
      FirstCellTypeOfConsistent(values, n, types, c, r + 1, typeOf);
    }
  }

  /** Consistent column types are the declared ones. */
  lemma ConsistentFields(values: seq<seq<Expr>>, types: seq<Option<DataType>>, typeOf: Expr -> Result<DataType>)
    requires |values| > 0 && Rectangular(values, |values[0]|, |values|)
    requires Consistent(values, |values[0]|, |values|, types, typeOf)
    ensures ValuesFields(types) == DeclaredFields(values, typeOf)
  {
    var n := |values[0]|;
    forall c | 0 <= c < n ensures FirstCellType(values, c, 0, typeOf) == types[c] {
      FirstCellTypeOfConsistent(values, n, types, c, 0, typeOf);
    }
  }

  /** The inferred column types of well-formed rows. */
  lemma InferredTypes(values: seq<seq<Expr>>, typeOf: Expr -> Result<DataType>)
    requires |values| > 0
    ensures var n := |values[0]|;
      InferTypes(values, n, 0, NoTypes(n), typeOf).Ok? <==> Rectangular(values, n, |values|) && TypesAgree(values, n, |values|, typeOf)
    ensures var n := |values[0]|;
      InferTypes(values, n, 0, NoTypes(n), typeOf).Ok? ==>
        Rectangular(values, n, |values|)
        && Consistent(values, n, |values|, InferTypes(values, n, 0, NoTypes(n), typeOf).value, typeOf)
        && ValuesFields(InferTypes(values, n, 0, NoTypes(n), typeOf).value) == DeclaredFields(values, typeOf)
  {
    var n := |values[0]|;
    InferTypesSpec(values, n, 0, NoTypes(n), typeOf);
    var t := InferTypes(values, n, 0, NoTypes(n), typeOf);
    if t.Ok? {
      ConsistentFields(values, t.value, typeOf);
    }
  }

  // ---------------------------------------------------------------------
  // The relation

  /** Predicate form of the builder's success. */
  predicate WellFormedValues(values: seq<seq<Expr>>, typeOf: Expr -> Result<DataType>,
                             validate: seq<DFField> -> Option<DataFusionError>)
  {
    |values| > 0 && |values[0]| > 0
    && Rectangular(values, |values[0]|, |values|)
    && TypesAgree(values, |values[0]|, |values|, typeOf)
    && !NullFillFails(values, DeclaredFields(values, typeOf))
    && validate(DeclaredFields(values, typeOf)).None?
  }

  /** `values` builds a relation exactly when the rows are non-empty,
      rectangular and typed consistently, every null hole can be typed and
      the schema is valid; the relation then has the declared schema and
      the filled rows. */
  lemma ValuesCharacterised(values: seq<seq<Expr>>, typeOf: Expr -> Result<DataType>,
                            validate: seq<DFField> -> Option<DataFusionError>)
    ensures ValuesSpec(values, typeOf, validate).Ok? <==> WellFormedValues(values, typeOf, validate)
    ensures ValuesSpec(values, typeOf, validate).Ok? ==>
      ValuesSpec(values, typeOf, validate).value
        == LogicalPlan.Values(DFSchema(DeclaredFields(values, typeOf), map[]), Filled(values, DeclaredFields(values, typeOf)))
  {
    if |values| > 0 && |values[0]| > 0 {
      InferredTypes(values, typeOf);
    }
  }

  /** Column j of a VALUES relation is named `column{j+1}`, is nullable and
      unqualified, and has the type of every non-null cell below it, or
      Utf8 when it holds only nulls. */
  lemma ValuesColumn(values: seq<seq<Expr>>, typeOf: Expr -> Result<DataType>,
                     validate: seq<DFField> -> Option<DataFusionError>, j: nat)
    requires ValuesSpec(values, typeOf, validate).Ok? && j < |values[0]|
    ensures var f := ValuesSpec(values, typeOf, validate).value.schema.fields[j];
      f.qualifier == None && f.field.name == ColumnName(j) && f.field.nullable
      && (forall r :: 0 <= r < |values| ==> |values[r]| == |values[0]|)
      && (forall r :: 0 <= r < |values| && j < |values[r]| && !IsNullLiteral(values[r][j]) ==>
            typeOf(values[r][j]) == Ok(f.field.dataType))
      && ((forall r :: 0 <= r < |values| && j < |values[r]| ==> IsNullLiteral(values[r][j])) ==> f.field.dataType == DataType.Utf8)
  {
    var n := |values[0]|;
    InferredTypes(values, typeOf);
  }

  /** Every cell of a VALUES relation is its input cell, except that each
      null hole now holds a null of the column's type. */
  lemma ValuesCells(values: seq<seq<Expr>>, typeOf: Expr -> Result<DataType>,
                    validate: seq<DFField> -> Option<DataFusionError>, r: nat, c: nat)
    requires ValuesSpec(values, typeOf, validate).Ok? && r < |values| && c < |values[r]|
    ensures var p := ValuesSpec(values, typeOf, validate).value;
      |p.values| == |values| && |p.values[r]| == |values[r]| && c < |p.schema.fields|
      && (!IsNullLiteral(values[r][c]) ==> p.values[r][c] == values[r][c])
      && (IsNullLiteral(values[r][c]) ==>
            p.values[r][c].Literal? && SV.IsNull(p.values[r][c].value)
            && SV.TypedNull(p.schema.fields[c].field.dataType) == Ok(p.values[r][c].value))
  {
    ValuesCharacterised(values, typeOf, validate);
    var p := ValuesSpec(values, typeOf, validate).value;
    InferredTypes(values, typeOf);
    if IsNullLiteral(values[r][c]) {
      ScalarProps.TypedNullIsNull(p.schema.fields[c].field.dataType);
    }
  }

  /** The column names of a VALUES relation are pairwise distinct. */
  lemma ValuesNamesDistinct(values: seq<seq<Expr>>, typeOf: Expr -> Result<DataType>,
                            validate: seq<DFField> -> Option<DataFusionError>, j: nat, k: nat)
    requires ValuesSpec(values, typeOf, validate).Ok?
    requires j < k < |ValuesSpec(values, typeOf, validate).value.schema.fields|
    ensures ValuesSpec(values, typeOf, validate).value.schema.fields[j].field.name
         != ValuesSpec(values, typeOf, validate).value.schema.fields[k].field.name
  {
    ValuesCharacterised(values, typeOf, validate);
    if ColumnName(j) == ColumnName(k) {
      PrefixedNumeralInjective("column", j + 1, k + 1);
    }
  }

  /** The first ragged row, after well-typed rows, is reported by row
      number, width and expected width. */
  lemma RaggedRowReported(values: seq<seq<Expr>>, typeOf: Expr -> Result<DataType>,
                          validate: seq<DFField> -> Option<DataFusionError>, k: nat)
    requires 0 < k < |values| && |values[0]| > 0
    requires Rectangular(values, |values[0]|, k) && TypesAgree(values, |values[0]|, k, typeOf)
    requires |values[k]| != |values[0]|
    ensures ValuesSpec(values, typeOf, validate) == Err(RowLengthError(|values[k]|, k, |values[0]|))
  {
    var n := |values[0]|;
    var t := Reach(values, n, 0, NoTypes(n), k, typeOf);
  }

  /** The first cell whose type differs from that of a non-null cell above
      it, in a row of the right width after well-typed rows, is reported by
      its row and column. */
  lemma TypeClashReported(values: seq<seq<Expr>>, typeOf: Expr -> Result<DataType>,
                          validate: seq<DFField> -> Option<DataFusionError>, k: nat, c: nat, r: nat)
    requires 0 <= r < k < |values| && c < |values[0]|
    requires Rectangular(values, |values[0]|, k + 1) && TypesAgree(values, |values[0]|, k, typeOf)
    requires forall d :: 0 <= d < c && !IsNullLiteral(values[k][d]) ==>
      typeOf(values[k][d]).Ok?
      && forall q :: 0 <= q < k && !IsNullLiteral(values[q][d]) ==> typeOf(values[q][d]) == typeOf(values[k][d])
    requires !IsNullLiteral(values[r][c]) && !IsNullLiteral(values[k][c])
    requires typeOf(values[k][c]).Ok? && typeOf(values[k][c]) != typeOf(values[r][c])
    ensures ValuesSpec(values, typeOf, validate) == Err(ColumnTypeError(k, c))
  {
    var n := |values[0]|;
    assert Rectangular(values, n, k);
    var t := Reach(values, n, 0, NoTypes(n), k, typeOf);
    forall d | 0 <= d < c
      ensures CellFits(values[k][d], t[d], typeOf)
    {
      if !IsNullLiteral(values[k][d]) && t[d].Some? {
        var q :| 0 <= q < k && !IsNullLiteral(values[q][d]);
        assert t[d] == Some(typeOf(values[q][d]).value);
      }
    }
    assert t[c] == Some(typeOf(values[r][c]).value);
    RowTypesFirstClash(values[k], k, 0, t, [], typeOf, c);
  }

  /** Within a row, the first cell that does not fit its column type
      decides the error. */
  lemma {:induction false} RowTypesFirstClash(row: seq<Expr>, i: nat, j: nat, types: seq<Option<DataType>>,
                                              acc: seq<Option<DataType>>, typeOf: Expr -> Result<DataType>, c: nat)
    requires j <= c < |row| == |types|
    requires forall d :: j <= d < c ==> CellFits(row[d], types[d], typeOf)
    requires !IsNullLiteral(row[c]) && typeOf(row[c]).Ok? && types[c].Some? && types[c].value != typeOf(row[c]).value
    ensures RowTypes(row, i, j, types, acc, typeOf) == Err(ColumnTypeError(i, c))
    decreases c - j
  {
    if j < c {
      var t := StepType(row[j], types[j], typeOf);
      assert CellType(row[j], i, j, types[j], typeOf) == Ok(t);
      RowTypesFirstClash(row, i, j + 1, types, acc + [t], typeOf, c);
    }
  }

  /** Inference over well-typed rows reaches row k with consistent types. */
  lemma {:induction false} Reach(values: seq<seq<Expr>>, n: nat, i: nat, types: seq<Option<DataType>>, k: nat,
                                 typeOf: Expr -> Result<DataType>) returns (t: seq<Option<DataType>>)
    requires i <= k <= |values| && Rectangular(values, n, k) && TypesAgree(values, n, k, typeOf)
    requires Consistent(values, n, i, types, typeOf)
    ensures Consistent(values, n, k, t, typeOf)
    ensures InferTypes(values, n, i, types, typeOf) == InferTypes(values, n, k, t, typeOf)
    decreases k - i
  {
    if i == k {
      t := types;
    } else {
      assert TypesAgree(values, n, i, typeOf);
      RowStep(values, n, i, types, typeOf);
      assert TypesAgree(values, n, i + 1, typeOf);
      t := Reach(values, n, i + 1, RowTypes(values[i], i, 0, types, [], typeOf).value, k, typeOf);
    }
  }
}
