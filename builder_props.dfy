/**
 * Properties of the builder helpers: positional aliasing, UNION
 * flattening and its schema, and the nesting order of window groups.
 */
module BuilderProps {

  import opened DFErrors
  import opened ArrowTypes
  import opened LogicalPlans
  import opened Builder

  // ---------------------------------------------------------------------
  // Positional aliasing

  /** Aliasing twice changes nothing more. */
  lemma ColumnIndexAliasIdempotent(exprs: seq<Expr>)
    ensures ColumnIndexAliased(ColumnIndexAliased(exprs)) == ColumnIndexAliased(exprs)
  {
    var once := ColumnIndexAliased(exprs);
    assert forall i :: 0 <= i < |once| ==> once[i].Alias? || once[i].Column?;
  }

  /** Every aliased expression has a name: it is an alias or a column. */
  lemma ColumnIndexAliasNames(exprs: seq<Expr>, i: nat)
    requires i < |exprs|
    ensures ColumnIndexAliased(exprs)[i].Alias? || ColumnIndexAliased(exprs)[i].Column?
  {
  }

  /** Generated aliases at different positions differ. */
  lemma GeneratedAliasesDistinct(exprs: seq<Expr>, i: nat, j: nat)
    requires i < j < |exprs|
    requires !exprs[i].Alias? && !exprs[i].Column? && !exprs[j].Alias? && !exprs[j].Column?
    ensures ColumnIndexAliased(exprs)[i].aliasName != ColumnIndexAliased(exprs)[j].aliasName
  {
    if "column" + NatToString(i) == "column" + NatToString(j) {
      PrefixedNumeralInjective("column", i, j);
    }
  }

  // ---------------------------------------------------------------------
  // UNION

  /** A union succeeds exactly when something is unioned and every input
      after the first (after flattening) is compatible with the left
      schema; its inputs are then the flattened inputs, projections
      re-aliased under the left schema, and its schema that of the first
      input with the alias as qualifier (or no qualifier). */
  lemma UnionCharacterised(left: LogicalPlan, right: LogicalPlan, alias: Option<string>,
                           compatible: (DFSchema, DFSchema) -> Option<DataFusionError>)
    ensures var flat := UnionInputs(left) + UnionInputs(right);
      UnionWithAlias(left, right, alias, compatible).Ok? <==>
        |flat| > 0 && forall i :: 1 <= i < |flat| ==> compatible(SchemaOf(left), SchemaOf(flat[i])).None?
    ensures var flat := UnionInputs(left) + UnionInputs(right);
      var r := UnionWithAlias(left, right, alias, compatible);
      r.Ok? ==> (r.value.Union? && r.value.alias == alias && |r.value.inputs| == |flat|
        && (forall i :: 0 <= i < |flat| ==> r.value.inputs[i] == Realiased(flat[i], SchemaOf(left)))
        && r.value.schema == (if alias.Some? then ReplaceQualifier(SchemaOf(r.value.inputs[0]), alias.value)
                              else StripQualifiers(SchemaOf(r.value.inputs[0]))))
  {
    var flat := UnionInputs(left) + UnionInputs(right);
    if |flat| > 1 {
      var rest := flat[1..];
      assert forall i :: 1 <= i < |flat| ==> flat[i] == rest[i - 1];
      assert forall i :: 0 <= i < |rest| ==> rest[i] == flat[i + 1];
    }
  }

  /** The first incompatible input, in order, decides the error. */
  lemma UnionReportsFirstIncompatible(left: LogicalPlan, right: LogicalPlan, alias: Option<string>,
                                      compatible: (DFSchema, DFSchema) -> Option<DataFusionError>, k: nat)
    requires var flat := UnionInputs(left) + UnionInputs(right);
      1 <= k < |flat| && compatible(SchemaOf(left), SchemaOf(flat[k])).Some?
      && forall i :: 1 <= i < k ==> compatible(SchemaOf(left), SchemaOf(flat[i])).None?
    ensures var flat := UnionInputs(left) + UnionInputs(right);
      UnionWithAlias(left, right, alias, compatible) == Err(compatible(SchemaOf(left), SchemaOf(flat[k])).value)
  {
    var flat := UnionInputs(left) + UnionInputs(right);
    FirstIncompatibleAt(SchemaOf(left), flat[1..], compatible, k - 1);
  }

  lemma {:induction false} FirstIncompatibleAt(schema: DFSchema, plans: seq<LogicalPlan>,
                                               compatible: (DFSchema, DFSchema) -> Option<DataFusionError>, k: nat)
    requires k < |plans| && compatible(schema, SchemaOf(plans[k])).Some?
    requires forall i :: 0 <= i < k ==> compatible(schema, SchemaOf(plans[i])).None?
    ensures FirstIncompatible(schema, plans, compatible) == compatible(schema, SchemaOf(plans[k]))
    decreases k
  {
    if k > 0 {
      assert forall i :: 0 <= i < k - 1 ==> plans[1..][i] == plans[i + 1];
      FirstIncompatibleAt(schema, plans[1..], compatible, k - 1);
    }
  }

  /** Without projections to re-alias and with compatible schemas, a
      union's inputs are the flattened inputs themselves. */
  lemma UnionOfPlainInputs(left: LogicalPlan, right: LogicalPlan,
                           compatible: (DFSchema, DFSchema) -> Option<DataFusionError>)
    requires forall p :: p in UnionInputs(left) + UnionInputs(right) ==> !p.Projection?
    requires UnionInputs(left) + UnionInputs(right) != []
    requires forall s1, s2 :: compatible(s1, s2).None?
    ensures UnionPlans(left, right, compatible).Ok?
    ensures UnionPlans(left, right, compatible).value.inputs == UnionInputs(left) + UnionInputs(right)
  {
    var flat := UnionInputs(left) + UnionInputs(right);
    UnionCharacterised(left, right, None, compatible);
    var r := UnionPlans(left, right, compatible).value;
    forall i | 0 <= i < |flat| ensures r.inputs[i] == flat[i] {
      assert flat[i] in flat;
    }
  }

  /** Chained unions of plain inputs collapse into one union of all of
      them, in order: `a.union(b).union(c).union(d)` has four inputs. */
  lemma UnionOfFour(a: LogicalPlan, b: LogicalPlan, c: LogicalPlan, d: LogicalPlan,
                    compatible: (DFSchema, DFSchema) -> Option<DataFusionError>)
    requires forall p :: p in [a, b, c, d] ==> !p.Union? && !p.Projection?
    requires forall s1, s2 :: compatible(s1, s2).None?
    ensures UnionPlans(a, b, compatible).Ok?
    ensures UnionPlans(UnionPlans(a, b, compatible).value, c, compatible).Ok?
    ensures UnionPlans(UnionPlans(UnionPlans(a, b, compatible).value, c, compatible).value, d, compatible).Ok?
    ensures UnionPlans(UnionPlans(UnionPlans(a, b, compatible).value, c, compatible).value, d, compatible).value.inputs
         == [a, b, c, d]
  {
    assert UnionInputs(a) + UnionInputs(b) == [a, b];
    UnionOfPlainInputs(a, b, compatible);
    var ab := UnionPlans(a, b, compatible).value;
    assert UnionInputs(ab) + UnionInputs(c) == [a, b, c];
    UnionOfPlainInputs(ab, c, compatible);
    var abc := UnionPlans(ab, c, compatible).value;
    assert UnionInputs(abc) + UnionInputs(d) == [a, b, c, d];
    UnionOfPlainInputs(abc, d, compatible);
  }

  // ---------------------------------------------------------------------
  // Window groups

  /** The groups of `s` whose key has length `len`, in order. */
  function WithKeyLen(s: seq<WindowGroup>, len: nat): seq<WindowGroup>
    decreases |s|
  {
    if s == [] then []
    else WithKeyLen(s[..|s| - 1], len) + (if KeyLen(s[|s| - 1]) == len then [s[|s| - 1]] else [])
  }

  lemma {:induction false} WithKeyLenAppend(s: seq<WindowGroup>, t: seq<WindowGroup>, len: nat)
    ensures WithKeyLen(s + t, len) == WithKeyLen(s, len) + WithKeyLen(t, len)
    decreases |t|
  {
    if t == [] {
      assert s + t == s;
    } else {
      assert (s + t)[..|s + t| - 1] == s + t[..|t| - 1];
      WithKeyLenAppend(s, t[..|t| - 1], len);
    }
  }

  /** Inserting a group keeps the relative order of every key length. */
  lemma {:induction false} InsertKeepsOrder(sorted: seq<WindowGroup>, g: WindowGroup, len: nat)
    ensures WithKeyLen(InsertByKeyLen(sorted, g), len) == WithKeyLen(sorted + [g], len)
    decreases |sorted|
  {
    if sorted == [] || KeyLen(sorted[|sorted| - 1]) <= KeyLen(g) {
    } else {
      var init, last := sorted[..|sorted| - 1], sorted[|sorted| - 1];
      InsertKeepsOrder(init, g, len);
      WithKeyLenAppend(InsertByKeyLen(init, g), [last], len);
      WithKeyLenAppend(init, [g], len);
      WithKeyLenAppend(init, [last], len);
      WithKeyLenAppend(sorted, [g], len);
      assert init + [last] == sorted;
      assert WithKeyLen([g], len) == (if KeyLen(g) == len then [g] else []) by {
        assert [g][..0] == [];
      }
      assert WithKeyLen([last], len) == (if KeyLen(last) == len then [last] else []) by {
        assert [last][..0] == [];
      }
    }
  }

  /** The sort is stable: groups of equal key length keep their order. */
  lemma {:induction false} SortIsStable(groups: seq<WindowGroup>, len: nat)
    ensures WithKeyLen(StableSortByKeyLen(groups), len) == WithKeyLen(groups, len)
    decreases |groups|
  {
    if groups != [] {
      var init, last := groups[..|groups| - 1], groups[|groups| - 1];
      SortIsStable(init, len);
      InsertKeepsOrder(StableSortByKeyLen(init), last, len);
      WithKeyLenAppend(StableSortByKeyLen(init), [last], len);
      WithKeyLenAppend(init, [last], len);
      assert init + [last] == groups;
    }
  }

  predicate KeysAscending(s: seq<WindowGroup>)
  {
    forall i, j :: 0 <= i < j < |s| ==> KeyLen(s[i]) <= KeyLen(s[j])
  }

  lemma {:induction false} InsertMultiset(sorted: seq<WindowGroup>, g: WindowGroup)
    ensures multiset(InsertByKeyLen(sorted, g)) == multiset(sorted) + multiset{g}
    decreases |sorted|
  {
    if !(sorted == [] || KeyLen(sorted[|sorted| - 1]) <= KeyLen(g)) {
      InsertMultiset(sorted[..|sorted| - 1], g);
      assert sorted[..|sorted| - 1] + [sorted[|sorted| - 1]] == sorted;
    }
  }

  lemma {:induction false} InsertBounded(s: seq<WindowGroup>, g: WindowGroup, bound: nat)
    requires forall i :: 0 <= i < |s| ==> KeyLen(s[i]) <= bound
    requires KeyLen(g) <= bound
    ensures forall i :: 0 <= i < |s| + 1 ==> KeyLen(InsertByKeyLen(s, g)[i]) <= bound
    decreases |s|
  {
    if !(s == [] || KeyLen(s[|s| - 1]) <= KeyLen(g)) {
      InsertBounded(s[..|s| - 1], g, bound);
    }
  }

  lemma {:induction false} InsertSorted(sorted: seq<WindowGroup>, g: WindowGroup)
    requires KeysAscending(sorted)
    ensures KeysAscending(InsertByKeyLen(sorted, g))
    decreases |sorted|
  {
    if !(sorted == [] || KeyLen(sorted[|sorted| - 1]) <= KeyLen(g)) {
      var init, last := sorted[..|sorted| - 1], sorted[|sorted| - 1];
      InsertSorted(init, g);
      InsertBounded(init, g, KeyLen(last));
    }
  }

  lemma {:induction false} SortSorts(groups: seq<WindowGroup>)
    ensures KeysAscending(StableSortByKeyLen(groups))
    ensures multiset(StableSortByKeyLen(groups)) == multiset(groups)
    decreases |groups|
  {
    if groups != [] {
      var init := groups[..|groups| - 1];
      SortSorts(init);
      InsertSorted(StableSortByKeyLen(init), groups[|groups| - 1]);
      InsertMultiset(StableSortByKeyLen(init), groups[|groups| - 1]);
      assert init + [groups[|groups| - 1]] == groups;
    }
  }

  lemma {:induction false} ReverseFacts<T>(s: seq<T>)
    ensures forall i :: 0 <= i < |s| ==> Reverse(s)[i] == s[|s| - 1 - i]
    ensures multiset(Reverse(s)) == multiset(s)
    decreases |s|
  {
    if s != [] {
      ReverseFacts(s[1..]);
      assert s == [s[0]] + s[1..];
    }
  }

  lemma {:induction false} ReverseAppend<T>(a: seq<T>, b: seq<T>)
    ensures Reverse(a + b) == Reverse(b) + Reverse(a)
    decreases |a|
  {
    if a == [] {
      assert a + b == b;
    } else {
      assert (a + b)[1..] == a[1..] + b;
      ReverseAppend(a[1..], b);
    }
  }

  lemma {:induction false} WithKeyLenReverse(s: seq<WindowGroup>, len: nat)
    ensures WithKeyLen(Reverse(s), len) == Reverse(WithKeyLen(s, len))
    decreases |s|
  {
    if s != [] {
      var init, last := s[..|s| - 1], s[|s| - 1];
      assert s == init + [last];
      ReverseAppend(init, [last]);
      assert Reverse([last]) == [last];
      WithKeyLenAppend([last], Reverse(init), len);
      WithKeyLenReverse(init, len);
      var tail := if KeyLen(last) == len then [last] else [];
      assert WithKeyLen([last], len) == tail by {
        assert [last][..0] == [];
      }
      ReverseAppend(WithKeyLen(init, len), tail);
      assert Reverse(tail) == tail;
    }
  }

  /** `window_plan` nests the groups longest key first, ties in reverse
      input order, each group exactly once. */
  lemma WindowGroupOrderSpec(groups: seq<WindowGroup>)
    ensures multiset(WindowGroupOrder(groups)) == multiset(groups)
    ensures forall i, j :: 0 <= i < j < |groups| ==>
      KeyLen(WindowGroupOrder(groups)[i]) >= KeyLen(WindowGroupOrder(groups)[j])
    ensures forall len: nat :: WithKeyLen(WindowGroupOrder(groups), len) == Reverse(WithKeyLen(groups, len))
  {
    var sorted := StableSortByKeyLen(groups);
    SortSorts(groups);
    ReverseFacts(sorted);
    forall len: nat ensures WithKeyLen(WindowGroupOrder(groups), len) == Reverse(WithKeyLen(groups, len)) {
      WithKeyLenReverse(sorted, len);
      SortIsStable(groups, len);
    }
  }
}
