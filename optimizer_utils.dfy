/**
 * Optimizer utilities: decomposing an expression into its direct children
 * and rebuilding it from a (possibly rewritten) list of them, splitting an
 * AND tree into conjuncts and folding them back into one filter, and
 * reassembling a plan node from new expressions and inputs.
 */
module OptimizerUtils {

  import opened DFErrors
  import opened ArrowTypes
  import SV = Scalar
  import opened LogicalPlans
  import Builder

  // Marker literals that flatten the optional and variable-length parts of
  // CASE and window function expressions into one list.
  const CASE_EXPR_MARKER: string := "__DATAFUSION_CASE_EXPR__"
  const CASE_ELSE_MARKER: string := "__DATAFUSION_CASE_ELSE__"
  const WINDOW_PARTITION_MARKER: string := "__DATAFUSION_WINDOW_PARTITION__"
  const WINDOW_SORT_MARKER: string := "__DATAFUSION_WINDOW_SORT__"

  const WildcardError: DataFusionError := Internal("Wildcard expressions are not valid in a logical query plan")
  const QualifiedWildcardError: DataFusionError :=
    Internal("QualifiedWildcard expressions are not valid in a logical query plan")
  const GroupingSetsError: DataFusionError := Plan("GroupingSets are not supported yet")
  const MissingPartitionMarker: DataFusionError := Internal("Ill-formed window function expressions: unexpected marker")
  const MissingSortMarker: DataFusionError := Internal("Ill-formed window function expressions")
  const MarkersOutOfOrder: DataFusionError := Internal("Ill-formed window function expressions: partition index too large")

  /** The when/then pairs of a CASE, flattened `[w1, t1, w2, t2, ...]`. */
  function FlattenWhenThen(whenThen: seq<WhenThen>): (r: seq<Expr>)
    ensures |r| == 2 * |whenThen|
    ensures forall k :: 0 <= k < |whenThen| ==> r[2 * k] == whenThen[k].whenExpr && r[2 * k + 1] == whenThen[k].thenExpr
    decreases |whenThen|
  {
    if whenThen == [] then []
    else [whenThen[0].whenExpr, whenThen[0].thenExpr] + FlattenWhenThen(whenThen[1..])
  }

  /** `expr_sub_expressions`: the direct children of an expression, with
      marker literals delimiting the parts of CASE and window functions. */
  function SubExpressions(e: Expr): Result<seq<Expr>>
  {
    match e
    case BinaryExpr(left, _, right) => Ok([left, right])
    case IsNull(x) => Ok([x])
    case IsNotNull(x) => Ok([x])
    case Cast(x, _) => Ok([x])
    case TryCast(x, _) => Ok([x])
    case Alias(x, _) => Ok([x])
    case Not(x) => Ok([x])
    case Negative(x) => Ok([x])
    case Sort(x, _, _) => Ok([x])
    case GetIndexedField(x, _) => Ok([x])
    case ScalarFunction(_, args) => Ok(args)
    case ScalarUDF(_, args) => Ok(args)
    case AggregateFunction(_, args, _) => Ok(args)
    case AggregateUDF(_, args) => Ok(args)
    case GroupingSet(gs) =>
      (match gs
       case Rollup(exprs) => Ok(exprs)
       case Cube(exprs) => Ok(exprs)
       case GroupingSets(_) => Err(GroupingSetsError))
    case WindowFunction(_, args, partitionBy, orderBy, _) =>
      Ok(args + [StringLit(WINDOW_PARTITION_MARKER)] + partitionBy + [StringLit(WINDOW_SORT_MARKER)] + orderBy)
    case Case(base, whenThen, elseExpr) =>
      Ok((if base.Some? then [StringLit(CASE_EXPR_MARKER), base.value] else [])
         + FlattenWhenThen(whenThen)
         + (if elseExpr.Some? then [StringLit(CASE_ELSE_MARKER), elseExpr.value] else []))
    case Column(_) => Ok([])
    case Literal(_) => Ok([])
    case ScalarVariable(_, _) => Ok([])
    case Between(x, _, low, high) => Ok([x, low, high])
    case InList(x, list, _) => Ok([x] + list)
    case Exists(_, _) => Ok([])
    case InSubquery(x, _, _) => Ok([x])
    case ScalarSubquery(_) => Ok([])
    case Wildcard => Err(WildcardError)
    case QualifiedWildcard(_) => Err(QualifiedWildcardError)
  }

  /** The first position of marker literal `m` in `xs`. */
  function MarkerPosition(xs: seq<Expr>, m: string): (r: Option<nat>)
    ensures r.Some? ==> (r.value < |xs| && xs[r.value] == StringLit(m)
      && forall k :: 0 <= k < r.value ==> xs[k] != StringLit(m))
    ensures r.None? ==> forall k :: 0 <= k < |xs| ==> xs[k] != StringLit(m)
    decreases |xs|
  {
    if xs == [] then None
    else if xs[0] == StringLit(m) then Some(0)
    else
      match MarkerPosition(xs[1..], m)
      case None => None
      case Some(p) => Some(p + 1)
  }

  /** The window function rebuilt from `expressions`, split at the first
      partition marker and the first sort marker. */
  function RebuiltWindow(fun: string, frame: Option<WindowFrame>, expressions: seq<Expr>): Result<Expr>
  {
    match MarkerPosition(expressions, WINDOW_PARTITION_MARKER)
    case None => Err(MissingPartitionMarker)
    case Some(p) =>
      match MarkerPosition(expressions, WINDOW_SORT_MARKER)
      case None => Err(MissingSortMarker)
      case Some(s) =>
        if p >= s then Err(MarkersOutOfOrder)
        else Ok(WindowFunction(fun, expressions[..p], expressions[p + 1..s], expressions[s + 1..], frame))
  }

  /** The CASE rebuilt from `expressions[i..]`, two entries at a time: a
      marker and the base or else expression it announces, or a when/then
      pair. A trailing single entry is an out-of-bounds index. */
  function RebuiltCase(expressions: seq<Expr>, i: nat, base: Option<Expr>, whenThen: seq<WhenThen>,
                       elseExpr: Option<Expr>): Result<Expr>
    decreases |expressions| - i
  {
    if i >= |expressions| then Ok(Case(base, whenThen, elseExpr))
    else if i + 1 >= |expressions| then Err(IndexOutOfBounds)
    else if expressions[i] == StringLit(CASE_EXPR_MARKER) then
      RebuiltCase(expressions, i + 2, Some(expressions[i + 1]), whenThen, elseExpr)
    else if expressions[i] == StringLit(CASE_ELSE_MARKER) then
      RebuiltCase(expressions, i + 2, base, whenThen, Some(expressions[i + 1]))
    else
      RebuiltCase(expressions, i + 2, base, whenThen + [WhenThen(expressions[i], expressions[i + 1])], elseExpr)
  }

  /** `rewrite_expression`: the expression `e` rebuilt with `expressions`
      as its children. */
  function Rewrite(e: Expr, expressions: seq<Expr>): Result<Expr>
  {
    match e
    case BinaryExpr(_, op, _) =>
      if |expressions| < 2 then Err(IndexOutOfBounds) else Ok(BinaryExpr(expressions[0], op, expressions[1]))
    case IsNull(_) => if |expressions| == 0 then Err(IndexOutOfBounds) else Ok(IsNull(expressions[0]))
    case IsNotNull(_) => if |expressions| == 0 then Err(IndexOutOfBounds) else Ok(IsNotNull(expressions[0]))
    case ScalarFunction(fun, _) => Ok(ScalarFunction(fun, expressions))
    case ScalarUDF(fun, _) => Ok(ScalarUDF(fun, expressions))
    case WindowFunction(fun, _, _, _, frame) => RebuiltWindow(fun, frame, expressions)
    case AggregateFunction(fun, _, distinct) => Ok(AggregateFunction(fun, expressions, distinct))
    case AggregateUDF(fun, _) => Ok(AggregateUDF(fun, expressions))
    case GroupingSet(gs) =>
      (match gs
       case Rollup(_) => Ok(GroupingSet(Rollup(expressions)))
       case Cube(_) => Ok(GroupingSet(Rollup(expressions)))
       case GroupingSets(_) => Err(GroupingSetsError))
    case Case(_, _, _) => RebuiltCase(expressions, 0, None, [], None)
    case Cast(_, dt) => if |expressions| == 0 then Err(IndexOutOfBounds) else Ok(Cast(expressions[0], dt))
    case TryCast(_, dt) => if |expressions| == 0 then Err(IndexOutOfBounds) else Ok(TryCast(expressions[0], dt))
    case Alias(_, name) => if |expressions| == 0 then Err(IndexOutOfBounds) else Ok(Alias(expressions[0], name))
    case Not(_) => if |expressions| == 0 then Err(IndexOutOfBounds) else Ok(Not(expressions[0]))
    case Negative(_) => if |expressions| == 0 then Err(IndexOutOfBounds) else Ok(Negative(expressions[0]))
    case Column(_) => Ok(e)
    case Literal(_) => Ok(e)
    case InList(_, _, _) => Ok(e)
    case Exists(_, _) => Ok(e)
    case InSubquery(_, _, _) => Ok(e)
    case ScalarSubquery(_) => Ok(e)
    case ScalarVariable(_, _) => Ok(e)
    case Sort(_, asc, nullsFirst) =>
      if |expressions| == 0 then Err(IndexOutOfBounds) else Ok(Expr.Sort(expressions[0], asc, nullsFirst))
    case Between(_, negated, _, _) =>
      if |expressions| < 3 then Err(IndexOutOfBounds)
      else
        var range := AndExpr(BinaryExpr(expressions[0], GtEq, expressions[1]),
                             BinaryExpr(expressions[0], LtEq, expressions[2]));
        Ok(if negated then Not(range) else range)
    case Wildcard => Err(WildcardError)
    case QualifiedWildcard(_) => Err(QualifiedWildcardError)
    case GetIndexedField(_, key) =>
      if |expressions| == 0 then Err(IndexOutOfBounds) else Ok(GetIndexedField(expressions[0], key))
  }

  /** The CASE branch of `rewrite_expression`: walk the list two entries at
      a time, collecting the base, the when/then pairs and the else. */
  method RewriteCase(expressions: seq<Expr>) returns (r: Result<Expr>)
    ensures r == RebuiltCase(expressions, 0, None, [], None)
  {
    var base: Option<Expr> := None;
    var whenThen: seq<WhenThen> := [];
    var elseExpr: Option<Expr> := None;
    var i := 0;
    while i < |expressions|
      invariant RebuiltCase(expressions, 0, None, [], None) == RebuiltCase(expressions, i, base, whenThen, elseExpr)
      decreases |expressions| - i
    {
      if i + 1 >= |expressions| {
        return Err(IndexOutOfBounds);
      }
      if expressions[i] == StringLit(CASE_EXPR_MARKER) {
        base := Some(expressions[i + 1]);
      } else if expressions[i] == StringLit(CASE_ELSE_MARKER) {
        elseExpr := Some(expressions[i + 1]);
      } else {
        whenThen := whenThen + [WhenThen(expressions[i], expressions[i + 1])];
      }
      i := i + 2;
    }
    return Ok(Case(base, whenThen, elseExpr));
  }

  /** `rewrite_expression`, with the CASE branch as its loop. */
  method RewriteExpression(e: Expr, expressions: seq<Expr>) returns (r: Result<Expr>)
    ensures r == Rewrite(e, expressions)
  {
    if e.Case? {
      r := RewriteCase(expressions);
    } else {
      r := Rewrite(e, expressions);
    }
  }

  // ---------------------------------------------------------------------
  // Conjunctions

  /** The leaves of an AND tree, left to right, looking through aliases. */
  function Conjuncts(p: Expr): (r: seq<Expr>)
    ensures |r| > 0
    ensures forall k :: 0 <= k < |r| ==> !r[k].Alias? && !(r[k].BinaryExpr? && r[k].op == And)
    decreases p
  {
    match p
    case BinaryExpr(left, op, right) =>
      if op == And then Conjuncts(left) + Conjuncts(right) else [p]
    case Alias(x, _) => Conjuncts(x)
    case _ => [p]
  }

  /** A caller-owned list of predicates that `split_conjunction` appends to. */
  class PredicateList {
    var items: seq<Expr>

    constructor (initial: seq<Expr>)
      ensures items == initial
    {
      items := initial;
    }

    /** `split_conjunction`: append the conjuncts of `p`, leaving the
        existing items as they are. */
    method SplitConjunction(p: Expr)
      modifies this
      ensures items == old(items) + Conjuncts(p)
      decreases p
    {
      match p
      case BinaryExpr(left, op, right) =>
        if op == And {
          SplitConjunction(left);
          SplitConjunction(right);
        } else {
          items := items + [p];
        }
      case Alias(x, _) =>
        SplitConjunction(x);
      case _ =>
        items := items + [p];
    }
  }

  /** `acc AND rest[0] AND rest[1] ...`, associated to the left. */
  function FoldAnd(acc: Expr, rest: seq<Expr>): Expr
    decreases |rest|
  {
    if rest == [] then acc else FoldAnd(AndExpr(acc, rest[0]), rest[1..])
  }

  /** `add_filter`: one filter over `plan` whose predicate ANDs all of
      `predicates`; an empty list is an out-of-bounds index. */
  function AddFilter(plan: LogicalPlan, predicates: seq<Expr>): (r: Result<LogicalPlan>)
    ensures r.Err? <==> predicates == []
    ensures r.Err? ==> r.error == IndexOutOfBounds
    ensures r.Ok? ==> r.value.Filter? && r.value.input == plan
  {
    if predicates == [] then Err(IndexOutOfBounds)
    else Ok(Filter(FoldAnd(predicates[0], predicates[1..]), plan))
  }

  // ---------------------------------------------------------------------
  // Plan reassembly

  const RangeOutOfBounds: DataFusionError := Panic("range end index out of range for slice")
  const ZeroChunkSize: DataFusionError := Panic("chunk size must be non-zero")
  const ExplainFromExpr: DataFusionError := Panic("Explain can not be created from utils::from_expr")
  const AnalyzeWithExprs: DataFusionError := Panic("assertion failed: expr.is_empty()")
  const AnalyzeInputCount: DataFusionError := Panic("assertion failed: `(left == right)`")
  const LeafWithExprs: DataFusionError := Panic("plan should have no exprs")
  const LeafWithInputs: DataFusionError := Panic("plan should have no inputs")

  /** `expr.chunks_exact(width)`: consecutive rows of `width` expressions,
      any shorter remainder dropped. */
  function ChunksExact(expr: seq<Expr>, width: nat): (rows: seq<seq<Expr>>)
    requires width > 0
    ensures forall k :: 0 <= k < |rows| ==> |rows[k]| == width
    decreases |expr|
  {
    if |expr| < width then []
    else [expr[..width]] + ChunksExact(expr[width..], width)
  }

  /** The node whose only input is `inputs[0]`, built by `make`. */
  function WithFirstInput(inputs: seq<LogicalPlan>, make: LogicalPlan -> LogicalPlan): Result<LogicalPlan>
  {
    if |inputs| == 0 then Err(IndexOutOfBounds) else Ok(make(inputs[0]))
  }

  /** `from_plan`: a node of the same kind as `plan`, with `expr` as its
      expressions and `inputs` as its inputs. */
  function FromPlan(plan: LogicalPlan, expr: seq<Expr>, inputs: seq<LogicalPlan>,
                    validate: seq<DFField> -> Option<DataFusionError>): Result<LogicalPlan>
  {
    match plan
    case Projection(_, _, schema, alias) =>
      WithFirstInput(inputs, input => Projection(expr, input, schema, alias))
    case Values(schema, _) =>
      if |schema.fields| == 0 then Err(ZeroChunkSize)
      else Ok(Values(schema, ChunksExact(expr, |schema.fields|)))
    case Filter(_, _) =>
      if |expr| == 0 then Err(IndexOutOfBounds)
      else WithFirstInput(inputs, input => Filter(expr[0], input))
    case Repartition(_, scheme) =>
      (match scheme
       case RoundRobinBatch(n) => WithFirstInput(inputs, input => Repartition(input, RoundRobinBatch(n)))
       case Hash(_, n) => WithFirstInput(inputs, input => Repartition(input, Hash(expr, n))))
    case Window(_, windowExpr, schema) =>
      if |inputs| == 0 then Err(IndexOutOfBounds)
      else if |windowExpr| > |expr| then Err(RangeOutOfBounds)
      else Ok(Window(inputs[0], expr[..|windowExpr|], schema))
    case Aggregate(_, groupExpr, _, schema) =>
      if |groupExpr| > |expr| then Err(RangeOutOfBounds)
      else WithFirstInput(inputs, input => Aggregate(input, expr[..|groupExpr|], expr[|groupExpr|..], schema))
    case Sort(_, _) => WithFirstInput(inputs, input => LogicalPlan.Sort(expr, input))
    case Join(_, _, on, joinType, joinConstraint, _, nullEqualsNull) =>
      if |inputs| < 2 then Err(IndexOutOfBounds)
      else
        (match Builder.BuildJoinSchema(SchemaOf(inputs[0]), SchemaOf(inputs[1]), joinType, validate)
         case Err(e) => Err(e)
         case Ok(schema) => Ok(Join(inputs[0], inputs[1], on, joinType, joinConstraint, schema, nullEqualsNull)))
    case Subquery(_) => WithFirstInput(inputs, input => Subquery(input))
    case Limit(n, _) => WithFirstInput(inputs, input => Limit(n, input))
    case CreateMemoryTable(name, _, ifNotExists) =>
      WithFirstInput(inputs, input => CreateMemoryTable(name, input, ifNotExists))
    case CreateView(name, _, orReplace) => WithFirstInput(inputs, input => CreateView(name, input, orReplace))
    case Union(_, schema, alias) => Ok(Union(inputs, schema, alias))
    case Analyze(verbose, _, schema) =>
      if |expr| != 0 then Err(AnalyzeWithExprs)
      else if |inputs| != 1 then Err(AnalyzeInputCount)
      else Ok(Analyze(verbose, inputs[0], schema))
    case Explain(_, _, _) =>
      if |expr| != 0 || |inputs| != 0 then Err(ExplainFromExpr) else Ok(plan)
    case EmptyRelation(_, _) => Leaf(plan, expr, inputs)
    case TableScan(_, _, _, _, _) => Leaf(plan, expr, inputs)
    case CreateExternalTable(_, _, _) => Leaf(plan, expr, inputs)
    case DropTable(_, _, _) => Leaf(plan, expr, inputs)
    case CreateCatalogSchema(_, _, _) => Leaf(plan, expr, inputs)
    case CreateCatalog(_, _, _) => Leaf(plan, expr, inputs)
  }

  /** A node without expressions or inputs is returned as it is. */
  function Leaf(plan: LogicalPlan, expr: seq<Expr>, inputs: seq<LogicalPlan>): (r: Result<LogicalPlan>)
    ensures r.Ok? <==> expr == [] && inputs == []
    ensures r.Ok? ==> r.value == plan
  {
    if |expr| != 0 then Err(LeafWithExprs)
    else if |inputs| != 0 then Err(LeafWithInputs)
    else Ok(plan)
  }
}
