/**
 * Properties of the optimizer utilities: which expressions survive the
 * decompose-then-rebuild round trip and which are deliberately changed,
 * the conjunct/filter round trip, and how a plan node is reassembled.
 */
module OptimizerProps {

  import opened DFErrors
  import opened ArrowTypes
  import SV = Scalar
  import opened LogicalPlans
  import Builder
  import opened OptimizerUtils

  // ---------------------------------------------------------------------
  // Decompose and rebuild

  /** The nodes whose children are rebuilt positionally. */
  predicate PositionalNode(e: Expr)
  {
    e.BinaryExpr? || e.IsNull? || e.IsNotNull? || e.Not? || e.Negative?
    || e.Cast? || e.TryCast? || e.Alias? || e.Sort? || e.GetIndexedField?
    || e.ScalarFunction? || e.ScalarUDF? || e.AggregateFunction? || e.AggregateUDF?
    || (e.GroupingSet? && e.groupingSet.Rollup?)
  }

  /** Rebuilding a positional node from its own children gives it back. */
  lemma PositionalRoundTrip(e: Expr)
    requires PositionalNode(e)
    ensures SubExpressions(e).Ok? && Rewrite(e, SubExpressions(e).value) == Ok(e)
  {
  }

  /** Column, Literal and ScalarVariable have no children. */
  lemma LeavesHaveNoChildren(e: Expr)
    requires e.Column? || e.Literal? || e.ScalarVariable?
    ensures SubExpressions(e) == Ok([])
  {
  }

  /** Rebuilding a leaf, an IN list, EXISTS or a subquery ignores the list
      it is given. */
  lemma OpaqueNodesIgnoreChildren(e: Expr, expressions: seq<Expr>)
    requires e.Column? || e.Literal? || e.ScalarVariable? || e.InList? || e.Exists? || e.InSubquery? || e.ScalarSubquery?
    ensures Rewrite(e, expressions) == Ok(e)
  {
  }

  /** Wildcards and GROUPING SETS are errors both ways. */
  lemma InvalidNodesFailBothWays(e: Expr, expressions: seq<Expr>)
    requires e.Wildcard? || e.QualifiedWildcard? || (e.GroupingSet? && e.groupingSet.GroupingSets?)
    ensures SubExpressions(e).Err? && Rewrite(e, expressions).Err?
    ensures SubExpressions(e).error == Rewrite(e, expressions).error
  {
  }

  /** CUBE is rebuilt as ROLLUP over the same expressions. */
  lemma CubeRebuiltAsRollup(exprs: seq<Expr>)
    ensures SubExpressions(GroupingSet(Cube(exprs))) == Ok(exprs)
    ensures Rewrite(GroupingSet(Cube(exprs)), exprs) == Ok(GroupingSet(Rollup(exprs)))
    ensures Rewrite(GroupingSet(Cube(exprs)), exprs) != Ok(GroupingSet(Cube(exprs)))
  {
  }

  /** BETWEEN is rebuilt as `x >= low AND x <= high`, negated for NOT
      BETWEEN; it is never rebuilt as itself. */
  lemma BetweenRebuiltAsRange(x: Expr, negated: bool, low: Expr, high: Expr)
    ensures var e := Between(x, negated, low, high);
      var range := AndExpr(BinaryExpr(x, GtEq, low), BinaryExpr(x, LtEq, high));
      SubExpressions(e) == Ok([x, low, high])
      && Rewrite(e, [x, low, high]) == Ok(if negated then Not(range) else range)
      && Rewrite(e, [x, low, high]) != Ok(e)
  {
  }

  // CASE

  predicate IsCaseMarker(e: Expr)
  {
    e == StringLit(CASE_EXPR_MARKER) || e == StringLit(CASE_ELSE_MARKER)
  }

  /** The decomposition of a CASE has even length. */
  lemma CaseDecompositionEven(base: Option<Expr>, whenThen: seq<WhenThen>, elseExpr: Option<Expr>)
    ensures SubExpressions(Case(base, whenThen, elseExpr)).Ok?
    ensures |SubExpressions(Case(base, whenThen, elseExpr)).value| % 2 == 0
  {
  }

  /** Scanning when/then pairs whose when operands are not markers
      collects exactly those pairs; the scan resumes at `stop`, with
      `collected` gathered. */
  lemma {:induction false} ScanPairs(xs: seq<Expr>, i: nat, pairs: seq<WhenThen>, base: Option<Expr>,
                                     acc: seq<WhenThen>, elseExpr: Option<Expr>, stop: nat, collected: seq<WhenThen>)
    requires stop == i + 2 * |pairs| <= |xs|
    requires collected == acc + pairs
    requires forall k :: 0 <= k < |pairs| ==> xs[i + 2 * k] == pairs[k].whenExpr && xs[i + 2 * k + 1] == pairs[k].thenExpr
    requires forall k :: 0 <= k < |pairs| ==> !IsCaseMarker(pairs[k].whenExpr)
    ensures RebuiltCase(xs, i, base, acc, elseExpr) == RebuiltCase(xs, stop, base, collected, elseExpr)
    decreases |pairs|
  {
    if pairs != [] {
      assert xs[i] == pairs[0].whenExpr && xs[i + 1] == pairs[0].thenExpr;
      assert WhenThen(xs[i], xs[i + 1]) == pairs[0];
      var rest := pairs[1..];
      forall k | 0 <= k < |rest|
        ensures xs[i + 2 + 2 * k] == rest[k].whenExpr && xs[i + 2 + 2 * k + 1] == rest[k].thenExpr
      {
        assert i + 2 + 2 * k == i + 2 * (k + 1);
      }
      assert !IsCaseMarker(xs[i]);
      assert RebuiltCase(xs, i, base, acc, elseExpr) == RebuiltCase(xs, i + 2, base, acc + [pairs[0]], elseExpr);
      assert acc + [pairs[0]] + rest == acc + pairs;
      ScanPairs(xs, i + 2, rest, base, acc + [pairs[0]], elseExpr, stop, collected);
    } else {
      assert acc + pairs == acc;
    }
  }

  /** The two CASE markers are different literals. */
  lemma CaseMarkersDiffer()
    ensures StringLit(CASE_EXPR_MARKER) != StringLit(CASE_ELSE_MARKER)
  {
    // "__DATAFUSION_CASE_E" is common; then 'X' (EXPR) against 'L' (ELSE)
    assert CASE_EXPR_MARKER[19] != CASE_ELSE_MARKER[19];
  }

  /** The flattened pairs sit, two by two, after the base part. */
  lemma PairsAfterHead(head: seq<Expr>, whenThen: seq<WhenThen>, tail: seq<Expr>)
    ensures var xs := head + FlattenWhenThen(whenThen) + tail;
      forall k :: 0 <= k < |whenThen| ==>
        xs[|head| + 2 * k] == whenThen[k].whenExpr && xs[|head| + 2 * k + 1] == whenThen[k].thenExpr
  {
    var pairs := FlattenWhenThen(whenThen);
    var xs := head + pairs + tail;
    forall k | 0 <= k < |whenThen|
      ensures xs[|head| + 2 * k] == whenThen[k].whenExpr && xs[|head| + 2 * k + 1] == whenThen[k].thenExpr
    {
      assert xs[|head| + 2 * k] == pairs[2 * k];
      assert xs[|head| + 2 * k + 1] == pairs[2 * k + 1];
    }
  }

  /** The flattened pairs are scanned back into the pairs. */
  lemma ScanFlattened(head: seq<Expr>, whenThen: seq<WhenThen>, tail: seq<Expr>, base: Option<Expr>)
    requires forall k :: 0 <= k < |whenThen| ==> !IsCaseMarker(whenThen[k].whenExpr)
    ensures var xs := head + FlattenWhenThen(whenThen) + tail;
      RebuiltCase(xs, |head|, base, [], None) == RebuiltCase(xs, |head + FlattenWhenThen(whenThen)|, base, whenThen, None)
  {
    var xs := head + FlattenWhenThen(whenThen) + tail;
    var stop := |head + FlattenWhenThen(whenThen)|;
    PairsAfterHead(head, whenThen, tail);
    assert [] + whenThen == whenThen;
    ScanPairs(xs, |head|, whenThen, base, [], None, stop, whenThen);
  }

  /** The base part of a CASE decomposition sets the base expression. */
  lemma CaseHeadStep(head: seq<Expr>, rest: seq<Expr>, base: Option<Expr>)
    requires head == if base.Some? then [StringLit(CASE_EXPR_MARKER), base.value] else []
    ensures RebuiltCase(head + rest, 0, None, [], None) == RebuiltCase(head + rest, |head|, base, [], None)
  {
    if base.Some? {
      var xs := head + rest;
      assert xs[0] == StringLit(CASE_EXPR_MARKER) && xs[1] == base.value;
    }
  }

  /** The else part of a CASE decomposition sets the else expression and
      ends the scan. */
  lemma CaseTailStep(prefix: seq<Expr>, tail: seq<Expr>, base: Option<Expr>, whenThen: seq<WhenThen>,
                     elseExpr: Option<Expr>)
    requires tail == if elseExpr.Some? then [StringLit(CASE_ELSE_MARKER), elseExpr.value] else []
    ensures RebuiltCase(prefix + tail, |prefix|, base, whenThen, None) == Ok(Case(base, whenThen, elseExpr))
  {
    if elseExpr.Some? {
      var xs := prefix + tail;
      var j := |prefix|;
      assert xs[j] == StringLit(CASE_ELSE_MARKER) && xs[j + 1] == elseExpr.value;
      CaseMarkersDiffer();
      assert RebuiltCase(xs, j, base, whenThen, None) == RebuiltCase(xs, j + 2, base, whenThen, elseExpr);
    } else {
      assert prefix + tail == prefix;
    }
  }

  /** Scanning the three parts of a CASE decomposition in order. */
  lemma RebuildCaseParts(base: Option<Expr>, whenThen: seq<WhenThen>, elseExpr: Option<Expr>,
                         head: seq<Expr>, tail: seq<Expr>)
    requires forall k :: 0 <= k < |whenThen| ==> !IsCaseMarker(whenThen[k].whenExpr)
    requires head == if base.Some? then [StringLit(CASE_EXPR_MARKER), base.value] else []
    requires tail == if elseExpr.Some? then [StringLit(CASE_ELSE_MARKER), elseExpr.value] else []
    ensures RebuiltCase(head + FlattenWhenThen(whenThen) + tail, 0, None, [], None) == Ok(Case(base, whenThen, elseExpr))
  {
    var pairs := FlattenWhenThen(whenThen);
    var xs := head + pairs + tail;
    var j := |head + pairs|;
    assert RebuiltCase(xs, 0, None, [], None) == RebuiltCase(xs, |head|, base, [], None) by {
      assert xs == head + (pairs + tail);
      CaseHeadStep(head, pairs + tail, base);
    }
    ScanFlattened(head, whenThen, tail, base);
    assert RebuiltCase(xs, j, base, whenThen, None) == Ok(Case(base, whenThen, elseExpr)) by {
      CaseTailStep(head + pairs, tail, base, whenThen, elseExpr);
    }
  }

  /** A CASE whose when operands are not marker literals is rebuilt from
      its decomposition as itself. */
  lemma CaseRoundTrip(base: Option<Expr>, whenThen: seq<WhenThen>, elseExpr: Option<Expr>)
    requires forall k :: 0 <= k < |whenThen| ==> !IsCaseMarker(whenThen[k].whenExpr)
    ensures var e := Case(base, whenThen, elseExpr); Rewrite(e, SubExpressions(e).value) == Ok(e)
  {
    var head: seq<Expr> := if base.Some? then [StringLit(CASE_EXPR_MARKER), base.value] else [];
    var tail: seq<Expr> := if elseExpr.Some? then [StringLit(CASE_ELSE_MARKER), elseExpr.value] else [];
    var e := Case(base, whenThen, elseExpr);
    var xs := head + FlattenWhenThen(whenThen) + tail;
    assert SubExpressions(e) == Ok(xs);
    assert Rewrite(e, xs) == RebuiltCase(xs, 0, None, [], None);
    RebuildCaseParts(base, whenThen, elseExpr, head, tail);
  }

  /** Why the proviso is needed: a when operand that is the base marker is
      read back as the base expression. */
  lemma CaseMarkerOperandMisread(thenExpr: Expr)
    ensures var e := Case(None, [WhenThen(StringLit(CASE_EXPR_MARKER), thenExpr)], None);
      Rewrite(e, SubExpressions(e).value) == Ok(Case(Some(thenExpr), [], None))
  {
    var e := Case(None, [WhenThen(StringLit(CASE_EXPR_MARKER), thenExpr)], None);
    var xs := [StringLit(CASE_EXPR_MARKER), thenExpr];
    assert SubExpressions(e).value == xs;
    assert RebuiltCase(xs, 0, None, [], None) == RebuiltCase(xs, 2, Some(thenExpr), [], None);
  }

  // Window functions

  /** A window function whose arguments contain neither marker, and whose
      partition expressions contain no sort marker, is rebuilt from its
      decomposition as itself. */
  lemma WindowRoundTrip(fun: string, args: seq<Expr>, partitionBy: seq<Expr>, orderBy: seq<Expr>,
                        frame: Option<WindowFrame>)
    requires StringLit(WINDOW_PARTITION_MARKER) !in args
    requires StringLit(WINDOW_SORT_MARKER) !in args && StringLit(WINDOW_SORT_MARKER) !in partitionBy
    ensures var e := WindowFunction(fun, args, partitionBy, orderBy, frame);
      Rewrite(e, SubExpressions(e).value) == Ok(e)
  {
    WindowListRebuilt(fun, frame, args, partitionBy, orderBy);
  }

  /** The markers of a window decomposition are found where they were put. */
  lemma WindowListRebuilt(fun: string, frame: Option<WindowFrame>, args: seq<Expr>, partitionBy: seq<Expr>,
                          orderBy: seq<Expr>)
    requires StringLit(WINDOW_PARTITION_MARKER) !in args
    requires StringLit(WINDOW_SORT_MARKER) !in args && StringLit(WINDOW_SORT_MARKER) !in partitionBy
    ensures var xs := args + [StringLit(WINDOW_PARTITION_MARKER)] + partitionBy + [StringLit(WINDOW_SORT_MARKER)] + orderBy;
      RebuiltWindow(fun, frame, xs) == Ok(WindowFunction(fun, args, partitionBy, orderBy, frame))
  {
    var pm, sm := StringLit(WINDOW_PARTITION_MARKER), StringLit(WINDOW_SORT_MARKER);
    var xs := args + [pm] + partitionBy + [sm] + orderBy;
    var p := |args|;
    var s := |args| + 1 + |partitionBy|;
    assert MarkerPosition(xs, WINDOW_PARTITION_MARKER) == Some(p) by {
      forall k | 0 <= k < p ensures xs[k] != pm {
        assert xs[k] == args[k];
      }
      FirstMarkerAt(xs, WINDOW_PARTITION_MARKER, p);
    }
    assert MarkerPosition(xs, WINDOW_SORT_MARKER) == Some(s) by {
      assert pm != sm by {
        // "__DATAFUSION_WINDOW_" is common; then 'P' (PARTITION) against 'S' (SORT)
        assert WINDOW_PARTITION_MARKER[20] != WINDOW_SORT_MARKER[20];
      }
      forall k | 0 <= k < s ensures xs[k] != sm {
        if k < p {
          assert xs[k] == args[k];
        } else if k > p {
          assert xs[k] == partitionBy[k - p - 1];
        }
      }
      FirstMarkerAt(xs, WINDOW_SORT_MARKER, s);
    }
    assert xs[..p] == args;
    assert xs[p + 1..s] == partitionBy;
    assert xs[s + 1..] == orderBy;
  }

  lemma FirstMarkerAt(xs: seq<Expr>, m: string, p: nat)
    requires p < |xs| && xs[p] == StringLit(m) && forall k :: 0 <= k < p ==> xs[k] != StringLit(m)
    ensures MarkerPosition(xs, m) == Some(p)
  {
  }

  /** Conversely, a successful window rebuild decomposes back into the
      list it came from, and that list has the promised shape. */
  lemma WindowRebuildDecomposes(fun: string, frame: Option<WindowFrame>, expressions: seq<Expr>)
    requires RebuiltWindow(fun, frame, expressions).Ok?
    ensures var w := RebuiltWindow(fun, frame, expressions).value;
      w.WindowFunction? && w.fun == fun && w.windowFrame == frame
      && StringLit(WINDOW_PARTITION_MARKER) !in w.args
      && StringLit(WINDOW_SORT_MARKER) !in w.args && StringLit(WINDOW_SORT_MARKER) !in w.partitionBy
      && SubExpressions(w) == Ok(expressions)
  {
    var p := MarkerPosition(expressions, WINDOW_PARTITION_MARKER).value;
    var s := MarkerPosition(expressions, WINDOW_SORT_MARKER).value;
    assert expressions == expressions[..p] + [expressions[p]] + expressions[p + 1..s] + [expressions[s]] + expressions[s + 1..];
  }

  /** The window rebuild reports a missing or misplaced marker. */
  lemma WindowRebuildErrors(fun: string, frame: Option<WindowFrame>, expressions: seq<Expr>)
    ensures StringLit(WINDOW_PARTITION_MARKER) !in expressions ==>
      RebuiltWindow(fun, frame, expressions) == Err(MissingPartitionMarker)
    ensures StringLit(WINDOW_PARTITION_MARKER) in expressions && StringLit(WINDOW_SORT_MARKER) !in expressions ==>
      RebuiltWindow(fun, frame, expressions) == Err(MissingSortMarker)
  {
    if StringLit(WINDOW_PARTITION_MARKER) in expressions {
      var k :| 0 <= k < |expressions| && expressions[k] == StringLit(WINDOW_PARTITION_MARKER);
      assert MarkerPosition(expressions, WINDOW_PARTITION_MARKER).Some?;
    }
  }

  /** A sort marker at `s` with no partition marker up to it, while a
      partition marker comes later, is reported as markers out of order. */
  lemma WindowMarkersOutOfOrder(fun: string, frame: Option<WindowFrame>, expressions: seq<Expr>, s: nat)
    requires s < |expressions| && expressions[s] == StringLit(WINDOW_SORT_MARKER)
    requires StringLit(WINDOW_PARTITION_MARKER) in expressions
    requires forall k :: 0 <= k <= s ==> expressions[k] != StringLit(WINDOW_PARTITION_MARKER)
    ensures RebuiltWindow(fun, frame, expressions) == Err(MarkersOutOfOrder)
  {
    var k :| 0 <= k < |expressions| && expressions[k] == StringLit(WINDOW_PARTITION_MARKER);
    assert MarkerPosition(expressions, WINDOW_PARTITION_MARKER).Some?;
  }

  // ---------------------------------------------------------------------
  // Conjunctions

  predicate NotAndOrAlias(e: Expr)
  {
    !e.Alias? && !(e.BinaryExpr? && e.op == And)
  }

  /** Splitting a left fold of ANDs gives back the folded predicates. */
  lemma {:induction false} ConjunctsOfFold(acc: Expr, rest: seq<Expr>)
    requires forall k :: 0 <= k < |rest| ==> NotAndOrAlias(rest[k])
    ensures Conjuncts(FoldAnd(acc, rest)) == Conjuncts(acc) + rest
    decreases |rest|
  {
    if rest != [] {
      ConjunctsOfFold(AndExpr(acc, rest[0]), rest[1..]);
      assert Conjuncts(AndExpr(acc, rest[0])) == Conjuncts(acc) + [rest[0]];
      assert Conjuncts(acc) + [rest[0]] + rest[1..] == Conjuncts(acc) + rest;
    }
  }

  /** `add_filter` then `split_conjunction` gives back predicates none of
      which is an AND or an alias. */
  lemma AddFilterSplitRoundTrip(plan: LogicalPlan, predicates: seq<Expr>)
    requires predicates != []
    requires forall k :: 0 <= k < |predicates| ==> NotAndOrAlias(predicates[k])
    ensures Conjuncts(AddFilter(plan, predicates).value.filterExpr) == predicates
  {
    ConjunctsOfFold(predicates[0], predicates[1..]);
    assert [predicates[0]] + predicates[1..] == predicates;
  }

  /** Splitting, filtering with the parts and splitting again gives the
      same parts. */
  lemma SplitFilterSplit(plan: LogicalPlan, p: Expr)
    ensures Conjuncts(AddFilter(plan, Conjuncts(p)).value.filterExpr) == Conjuncts(p)
  {
    AddFilterSplitRoundTrip(plan, Conjuncts(p));
  }

  // ---------------------------------------------------------------------
  // Plan reassembly

  /** `chunks_exact` keeps as many full rows as fit and drops the shorter
      remainder. */
  lemma {:induction false} ChunksExactCount(expr: seq<Expr>, width: nat)
    requires width > 0
    ensures |ChunksExact(expr, width)| * width <= |expr| < (|ChunksExact(expr, width)| + 1) * width
    decreases |expr|
  {
    if |expr| >= width {
      var q := |ChunksExact(expr[width..], width)|;
      ChunksExactCount(expr[width..], width);
      assert |ChunksExact(expr, width)| == q + 1;
      assert (q + 1) * width == q * width + width;
      assert (q + 2) * width == (q + 1) * width + width;
    }
  }

  /** Row `k` of `chunks_exact` is the `k`-th slice of `width` expressions. */
  lemma {:induction false} ChunksExactRows(expr: seq<Expr>, width: nat)
    requires width > 0
    ensures forall k :: 0 <= k < |ChunksExact(expr, width)| ==>
      k * width + width <= |expr| && ChunksExact(expr, width)[k] == expr[k * width..k * width + width]
    decreases |expr|
  {
    var rows := ChunksExact(expr, width);
    if |expr| >= width {
      var rest := expr[width..];
      var restRows := ChunksExact(rest, width);
      ChunksExactRows(rest, width);
      assert rows == [expr[..width]] + restRows;
      forall k | 0 <= k < |rows|
        ensures k * width + width <= |expr| && rows[k] == expr[k * width..k * width + width]
      {
        if k > 0 {
          var j := k - 1;
          assert j * width + width == k * width;
          assert rows[k] == restRows[j];
          assert restRows[j] == rest[j * width..j * width + width];
        }
      }
    }
  }

  /** The rows laid end to end, as `expressions()` lists the cells of a
      VALUES node. */
  function Concat(rows: seq<seq<Expr>>): seq<Expr>
  {
    if rows == [] then [] else rows[0] + Concat(rows[1..])
  }

  /** Regrouping the concatenation of rows of the chunk width gives the
      rows back. */
  lemma {:induction false} ChunksOfConcat(rows: seq<seq<Expr>>, width: nat)
    requires width > 0 && forall k :: 0 <= k < |rows| ==> |rows[k]| == width
    ensures ChunksExact(Concat(rows), width) == rows
    decreases |rows|
  {
    if rows != [] {
      ChunksOfConcat(rows[1..], width);
      var c := Concat(rows);
      assert c[..width] == rows[0];
      assert c[width..] == Concat(rows[1..]);
      assert [rows[0]] + rows[1..] == rows;
    }
  }

  /** VALUES: the expressions regrouped into rows of the schema's width
      (see `ChunksExactRows`); rows of that width are read back unchanged. */
  lemma FromPlanValues(schema: DFSchema, values: seq<seq<Expr>>, expr: seq<Expr>, inputs: seq<LogicalPlan>,
                       validate: seq<DFField> -> Option<DataFusionError>)
    ensures var r := FromPlan(LogicalPlan.Values(schema, values), expr, inputs, validate);
      (r.Ok? <==> |schema.fields| > 0)
      && (r.Ok? ==> r.value == LogicalPlan.Values(schema, ChunksExact(expr, |schema.fields|)))
    ensures (|schema.fields| > 0 && forall k :: 0 <= k < |values| ==> |values[k]| == |schema.fields|) ==>
      FromPlan(LogicalPlan.Values(schema, values), Concat(values), inputs, validate) == Ok(LogicalPlan.Values(schema, values))
  {
    if |schema.fields| > 0 {
      if forall k :: 0 <= k < |values| ==> |values[k]| == |schema.fields| {
        ChunksOfConcat(values, |schema.fields|);
      }
    }
  }

  /** Aggregate: the first `|group_expr|` expressions group, the rest
      aggregate. */
  lemma FromPlanAggregate(input: LogicalPlan, groupExpr: seq<Expr>, aggrExpr: seq<Expr>, schema: DFSchema,
                          expr: seq<Expr>, inputs: seq<LogicalPlan>, validate: seq<DFField> -> Option<DataFusionError>)
    ensures var r := FromPlan(Aggregate(input, groupExpr, aggrExpr, schema), expr, inputs, validate);
      (r.Ok? <==> |groupExpr| <= |expr| && |inputs| > 0)
      && (r.Ok? ==> r.value == Aggregate(inputs[0], expr[..|groupExpr|], expr[|groupExpr|..], schema))
    ensures FromPlan(Aggregate(input, groupExpr, aggrExpr, schema), groupExpr + aggrExpr, [input], validate)
         == Ok(Aggregate(input, groupExpr, aggrExpr, schema))
  {
    assert (groupExpr + aggrExpr)[..|groupExpr|] == groupExpr;
    assert (groupExpr + aggrExpr)[|groupExpr|..] == aggrExpr;
  }

  /** Window: the first `|window_expr|` expressions. */
  lemma FromPlanWindow(input: LogicalPlan, windowExpr: seq<Expr>, schema: DFSchema,
                       expr: seq<Expr>, inputs: seq<LogicalPlan>, validate: seq<DFField> -> Option<DataFusionError>)
    ensures var r := FromPlan(Window(input, windowExpr, schema), expr, inputs, validate);
      (r.Ok? <==> |windowExpr| <= |expr| && |inputs| > 0)
      && (r.Ok? ==> r.value == Window(inputs[0], expr[..|windowExpr|], schema))
    ensures FromPlan(Window(input, windowExpr, schema), windowExpr, [input], validate)
         == Ok(Window(input, windowExpr, schema))
  {
    assert windowExpr[..|windowExpr|] == windowExpr;
  }

  /** Projection, Filter, Sort and Limit take `inputs[0]` and keep their
      schema, alias and row count; each is rebuilt from its own
      expressions and input as itself. */
  lemma FromPlanSingleInput(plan: LogicalPlan, expr: seq<Expr>, inputs: seq<LogicalPlan>,
                            validate: seq<DFField> -> Option<DataFusionError>)
    requires plan.Projection? || plan.Filter? || plan.Sort? || plan.Limit?
    ensures var r := FromPlan(plan, expr, inputs, validate);
      (r.Ok? <==> |inputs| > 0 && (plan.Filter? ==> |expr| > 0))
      && (r.Ok? ==> r.value.input == inputs[0])
      && (r.Ok? && plan.Projection? ==> r.value == Projection(expr, inputs[0], plan.schema, plan.alias))
      && (r.Ok? && plan.Filter? ==> r.value == Filter(expr[0], inputs[0]))
      && (r.Ok? && plan.Sort? ==> r.value == LogicalPlan.Sort(expr, inputs[0]))
      && (r.Ok? && plan.Limit? ==> r.value == Limit(plan.n, inputs[0]))
    ensures plan.Projection? ==> FromPlan(plan, plan.expr, [plan.input], validate) == Ok(plan)
    ensures plan.Filter? ==> FromPlan(plan, [plan.filterExpr], [plan.input], validate) == Ok(plan)
    ensures plan.Sort? ==> FromPlan(plan, plan.sortExpr, [plan.input], validate) == Ok(plan)
    ensures plan.Limit? ==> FromPlan(plan, [], [plan.input], validate) == Ok(plan)
  {
  }

  /** Union: the new inputs, the old schema and alias. */
  lemma FromPlanUnion(oldInputs: seq<LogicalPlan>, schema: DFSchema, alias: Option<string>,
                      expr: seq<Expr>, inputs: seq<LogicalPlan>, validate: seq<DFField> -> Option<DataFusionError>)
    ensures FromPlan(Union(oldInputs, schema, alias), expr, inputs, validate) == Ok(Union(inputs, schema, alias))
  {
  }

  /** Join: the schema is rebuilt from the two new inputs. */
  lemma FromPlanJoin(plan: LogicalPlan, expr: seq<Expr>, inputs: seq<LogicalPlan>,
                     validate: seq<DFField> -> Option<DataFusionError>)
    requires plan.Join?
    ensures var r := FromPlan(plan, expr, inputs, validate);
      (r.Ok? <==> |inputs| >= 2 && Builder.BuildJoinSchema(SchemaOf(inputs[0]), SchemaOf(inputs[1]), plan.joinType, validate).Ok?)
      && (r.Ok? ==> r.value == plan.(left := inputs[0], right := inputs[1],
            schema := Builder.BuildJoinSchema(SchemaOf(inputs[0]), SchemaOf(inputs[1]), plan.joinType, validate).value))
  {
  }

  /** Explain, Analyze and the leaf nodes are returned only when called
      without expressions, and (but for Analyze) without inputs. */
  lemma FromPlanNoExpressions(plan: LogicalPlan, expr: seq<Expr>, inputs: seq<LogicalPlan>,
                              validate: seq<DFField> -> Option<DataFusionError>)
    requires plan.Explain? || plan.EmptyRelation? || plan.TableScan? || plan.CreateExternalTable?
      || plan.DropTable? || plan.CreateCatalogSchema? || plan.CreateCatalog?
    ensures FromPlan(plan, expr, inputs, validate).Ok? <==> expr == [] && inputs == []
    ensures FromPlan(plan, expr, inputs, validate).Ok? ==> FromPlan(plan, expr, inputs, validate).value == plan
  {
  }
}
