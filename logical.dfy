/**
 * The logical query representation the builder and the optimizer utilities
 * work on: expressions, logical plan nodes and DataFusion schemas (fields
 * with an optional relation qualifier).
 */
module LogicalPlans {

  import opened DFErrors
  import opened ArrowTypes
  import SV = Scalar

  /** A column reference, optionally qualified by a relation name. */
  datatype QualifiedColumn = QualifiedColumn(relation: Option<string>, name: string)

  /** Binary operators of `BinaryExpr`. */
  datatype Operator =
    | Eq | NotEq | Lt | LtEq | Gt | GtEq
    | Plus | Minus | Multiply | Divide | Modulo
    | And | Or | Like | NotLike
    | IsDistinctFrom | IsNotDistinctFrom
    | RegexMatch | RegexIMatch | RegexNotMatch | RegexNotIMatch
    | BitwiseAnd | StringConcat

  /** The frame of a window function; carried unchanged by every operation
      of the model, so only its identity matters. */
  datatype WindowFrame = WindowFrame(units: string, startBound: string, endBound: string)

  datatype WhenThen = WhenThen(whenExpr: Expr, thenExpr: Expr)

  datatype Expr =
    | Alias(expr: Expr, aliasName: string)
    | Column(column: QualifiedColumn)
    | ScalarVariable(varType: DataType, names: seq<string>)
    | Literal(value: SV.ScalarValue)
    | BinaryExpr(left: Expr, op: Operator, right: Expr)
    | Not(expr: Expr)
    | IsNotNull(expr: Expr)
    | IsNull(expr: Expr)
    | Negative(expr: Expr)
    | GetIndexedField(expr: Expr, key: SV.ScalarValue)
    | Between(expr: Expr, negated: bool, low: Expr, high: Expr)
    | Case(base: Option<Expr>, whenThen: seq<WhenThen>, elseExpr: Option<Expr>)
    | Cast(expr: Expr, dataType: DataType)
    | TryCast(expr: Expr, dataType: DataType)
    | Sort(expr: Expr, asc: bool, nullsFirst: bool)
    | ScalarFunction(fun: string, args: seq<Expr>)
    | ScalarUDF(fun: string, args: seq<Expr>)
    | AggregateFunction(fun: string, args: seq<Expr>, distinct: bool)
    | WindowFunction(fun: string, args: seq<Expr>, partitionBy: seq<Expr>, orderBy: seq<Expr>,
                     windowFrame: Option<WindowFrame>)
    | AggregateUDF(fun: string, args: seq<Expr>)
    | InList(expr: Expr, list: seq<Expr>, negated: bool)
    | Exists(subquery: LogicalPlan, negated: bool)
    | InSubquery(expr: Expr, subquery: LogicalPlan, negated: bool)
    | ScalarSubquery(subquery: LogicalPlan)
    | Wildcard
    | QualifiedWildcard(qualifier: string)
    | GroupingSet(groupingSet: GroupingSet)

  datatype GroupingSet =
    | Rollup(exprs: seq<Expr>)
    | Cube(exprs: seq<Expr>)
    | GroupingSets(sets: seq<seq<Expr>>)

  /** A string literal, `lit("...")`. */
  function StringLit(s: string): Expr
  {
    Literal(SV.Utf8(Some(s)))
  }

  /** `and(left, right)`. */
  function AndExpr(left: Expr, right: Expr): Expr
  {
    BinaryExpr(left, And, right)
  }

  /** A schema field: an Arrow field with an optional relation qualifier. */
  datatype DFField = DFField(qualifier: Option<string>, field: Field)

  datatype DFSchema = DFSchema(fields: seq<DFField>, metadata: map<string, string>)

  function EmptySchema(): DFSchema
  {
    DFSchema([], map[])
  }

  /** `DFSchema::replace_qualifier`: every field qualified by `q`. */
  function ReplaceQualifier(s: DFSchema, q: string): (r: DFSchema)
    ensures |r.fields| == |s.fields| && r.metadata == s.metadata
    ensures forall i :: 0 <= i < |s.fields| ==> r.fields[i] == DFField(Some(q), s.fields[i].field)
  {
    DFSchema(seq(|s.fields|, i requires 0 <= i < |s.fields| => DFField(Some(q), s.fields[i].field)), s.metadata)
  }

  /** `DFSchema::strip_qualifiers`: every field unqualified. */
  function StripQualifiers(s: DFSchema): (r: DFSchema)
    ensures |r.fields| == |s.fields| && r.metadata == s.metadata
    ensures forall i :: 0 <= i < |s.fields| ==> r.fields[i] == DFField(None, s.fields[i].field)
  {
    DFSchema(seq(|s.fields|, i requires 0 <= i < |s.fields| => DFField(None, s.fields[i].field)), s.metadata)
  }

  datatype JoinType = Inner | Left | Right | Full | Semi | Anti

  datatype JoinConstraint = On | Using

  datatype Partitioning = RoundRobinBatch(n: Usize) | Hash(exprs: seq<Expr>, n: Usize)

  /** Logical plan nodes. `CrossJoin`, `SubqueryAlias` and `Extension` are
      not part of this model. */
  datatype LogicalPlan =
    | Projection(expr: seq<Expr>, input: LogicalPlan, schema: DFSchema, alias: Option<string>)
    | Filter(filterExpr: Expr, input: LogicalPlan)
    | Window(input: LogicalPlan, windowExpr: seq<Expr>, schema: DFSchema)
    | Aggregate(input: LogicalPlan, groupExpr: seq<Expr>, aggrExpr: seq<Expr>, schema: DFSchema)
    | Sort(sortExpr: seq<Expr>, input: LogicalPlan)
    | Join(left: LogicalPlan, right: LogicalPlan, on: seq<(QualifiedColumn, QualifiedColumn)>,
           joinType: JoinType, joinConstraint: JoinConstraint, schema: DFSchema, nullEqualsNull: bool)
    | Repartition(input: LogicalPlan, partitioningScheme: Partitioning)
    | Union(inputs: seq<LogicalPlan>, schema: DFSchema, alias: Option<string>)
    | TableScan(tableName: string, projectedSchema: DFSchema, projection: Option<seq<Usize>>,
                filters: seq<Expr>, limit: Option<Usize>)
    | EmptyRelation(produceOneRow: bool, schema: DFSchema)
    | Subquery(subquery: LogicalPlan)
    | Limit(n: Usize, input: LogicalPlan)
    | CreateExternalTable(schema: DFSchema, name: string, location: string)
    | CreateMemoryTable(name: string, input: LogicalPlan, ifNotExists: bool)
    | CreateView(name: string, input: LogicalPlan, orReplace: bool)
    | CreateCatalogSchema(schemaName: string, ifNotExists: bool, schema: DFSchema)
    | CreateCatalog(catalogName: string, ifNotExists: bool, schema: DFSchema)
    | DropTable(name: string, ifExists: bool, schema: DFSchema)
    | Values(schema: DFSchema, values: seq<seq<Expr>>)
    | Explain(verbose: bool, plan: LogicalPlan, schema: DFSchema)
    | Analyze(verbose: bool, input: LogicalPlan, schema: DFSchema)

  /** `LogicalPlan::schema`: a node's own schema, or its input's for the
      nodes that do not change the row shape. */
  function SchemaOf(p: LogicalPlan): DFSchema
    decreases p
  {
    match p
    case Projection(_, _, s, _) => s
    case Filter(_, input) => SchemaOf(input)
    case Window(_, _, s) => s
    case Aggregate(_, _, _, s) => s
    case Sort(_, input) => SchemaOf(input)
    case Join(_, _, _, _, _, s, _) => s
    case Repartition(input, _) => SchemaOf(input)
    case Union(_, s, _) => s
    case TableScan(_, s, _, _, _) => s
    case EmptyRelation(_, s) => s
    case Subquery(q) => SchemaOf(q)
    case Limit(_, input) => SchemaOf(input)
    case CreateExternalTable(s, _, _) => s
    case CreateMemoryTable(_, input, _) => SchemaOf(input)
    case CreateView(_, input, _) => SchemaOf(input)
    case CreateCatalogSchema(_, _, s) => s
    case CreateCatalog(_, _, s) => s
    case DropTable(_, _, s) => s
    case Values(s, _) => s
    case Explain(_, _, s) => s
    case Analyze(_, _, s) => s
  }
}
