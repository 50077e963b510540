/**
 * `GET /api/entries` (app/api/entries/route.ts): the five optional query
 * parameters become one parameterised SQL statement and its positional
 * parameter list. Executing the statement is not part of the model; this
 * module is about the `(sql, params)` pair.
 */
module EntriesRoute {
  import opened Wrappers
  import opened Text

  /** The query parameters as `searchParams.get` returns them: `None` when absent. */
  datatype SearchParams = SearchParams(
    storeName: Option<string>,
    dateOfPurchase: Option<string>,
    dateFrom: Option<string>,
    dateTo: Option<string>,
    approved: Option<string>)

  /** A positional parameter: the route binds strings and one boolean. */
  datatype Param = TextParam(text: string) | BoolParam(flag: bool)

  /** One comparison `<column> <op> $k` of the WHERE clause, with the value bound to `$k`. */
  datatype Condition = Condition(column: string, op: string, value: Param)

  const SelectPrefix := "SELECT * FROM public.chrisexp WHERE 1=1"
  const OrderSuffix := " ORDER BY date_of_purchase DESC, id DESC"

  const NoParams := SearchParams(None, None, None, None, None)

  /** JavaScript truthiness of a query parameter: present and not the empty string. */
  predicate Truthy(p: Option<string>)
  {
    p.Some? && p.value != ""
  }

  /** The store-name comparison: a case-insensitive substring match, for a non-empty name. */
  function StoreCondition(q: SearchParams): seq<Condition>
  {
    if Truthy(q.storeName) then [Condition("store_name", "ILIKE", TextParam("%" + q.storeName.value + "%"))] else []
  }

  /** The exact-date comparison, for a non-empty date. */
  function DateCondition(q: SearchParams): seq<Condition>
  {
    if Truthy(q.dateOfPurchase) then [Condition("date_of_purchase", "=", TextParam(q.dateOfPurchase.value))] else []
  }

  /** The inclusive date range, only when both ends are non-empty. */
  function RangeCondition(q: SearchParams): seq<Condition>
  {
    if Truthy(q.dateFrom) && Truthy(q.dateTo)
    then [Condition("date_of_purchase", ">=", TextParam(q.dateFrom.value)),
          Condition("date_of_purchase", "<=", TextParam(q.dateTo.value))]
    else []
  }

  /** The approval comparison, whenever the parameter is present; only the text "true" means true. */
  function ApprovedCondition(q: SearchParams): seq<Condition>
  {
    if q.approved.Some? then [Condition("approved", "=", BoolParam(q.approved.value == "true"))] else []
  }

  /** The comparisons a request filters by, in the order the handler adds them. */
  function Conditions(q: SearchParams): (cs: seq<Condition>)
    ensures |cs| <= 5
  {
    StoreCondition(q) + DateCondition(q) + RangeCondition(q) + ApprovedCondition(q)
  }

  /** The SQL text of one comparison up to its placeholder number: `" AND <column> <op> $"`. */
  function ClauseHead(c: Condition): string
  {
    " AND " + c.column + " " + c.op + " $"
  }

  /** The SQL text of one comparison using placeholder `$k`. */
  function Fragment(c: Condition, k: nat): string
  {
    ClauseHead(c) + NatToString(k)
  }

  /** The comparisons as SQL text, numbering placeholders from `k` upward. */
  function Render(cs: seq<Condition>, k: nat): string
    decreases |cs|
  {
    if cs == [] then "" else Fragment(cs[0], k) + Render(cs[1..], k + 1)
  }

  /** The values bound to the comparisons' placeholders, in order. */
  function Values(cs: seq<Condition>): (ps: seq<Param>)
    ensures |ps| == |cs|
  {
    if cs == [] then [] else [cs[0].value] + Values(cs[1..])
  }

  /** The statement the handler sends for a request. */
  function QueryText(q: SearchParams): string
  {
    SelectPrefix + Render(Conditions(q), 1) + OrderSuffix
  }

  /** The parameter list the handler sends for a request. */
  function QueryParams(q: SearchParams): (ps: seq<Param>)
    ensures |ps| == |Conditions(q)| && |ps| <= 5
  {
    Values(Conditions(q))
  }

  /** Rendering two runs of comparisons one after the other continues the numbering. */
  lemma {:induction false} RenderAppend(a: seq<Condition>, b: seq<Condition>, k: nat)
    ensures Render(a + b, k) == Render(a, k) + Render(b, k + |a|)
    decreases |a|
  {
    if a == [] {
      assert a + b == b;
    } else {
      assert (a + b)[0] == a[0];
      assert (a + b)[1..] == a[1..] + b;
      RenderAppend(a[1..], b, k + 1);
    }
  }

  /** `(sql, params)` is the statement prefix and parameter list of the comparisons `added`. */
  ghost predicate Built(sql: string, params: seq<Param>, added: seq<Condition>)
  {
    sql == SelectPrefix + Render(added, 1) && params == Values(added)
  }

  lemma {:induction false} ValuesAppend(a: seq<Condition>, b: seq<Condition>)
    ensures Values(a) + Values(b) == Values(a + b)
    decreases |a|
  {
    if a == [] {
      assert a + b == b;
    } else {
      assert (a + b)[1..] == a[1..] + b;
      ValuesAppend(a[1..], b);
    }
  }

  /** Appending one comparison's text `head + k` and its value keeps `(sql, params)` in step. */
  lemma OneStep(sql: string, params: seq<Param>, added: seq<Condition>, c: Condition, head: string, k: nat)
    requires Built(sql, params, added) && k == |params| + 1 && ClauseHead(c) == head
    ensures Built(sql + head + NatToString(k), params + [c.value], added + [c])
  {
    RenderAppend(added, [c], 1);
    assert Render([c], k) == Fragment(c, k) + Render([], k + 1);
    ValuesAppend(added, [c]);
    Regroup(sql, head, NatToString(k));
  }

  /** The store-name block appends its own clause text and pattern. */
  lemma StoreStep(q: SearchParams, sql: string, params: seq<Param>, added: seq<Condition>, k: nat)
    requires Built(sql, params, added) && k == |params| + 1 && Truthy(q.storeName)
    ensures Built(sql + " AND store_name ILIKE $" + NatToString(k),
                  params + [TextParam("%" + q.storeName.value + "%")],
                  added + StoreCondition(q))
  {
    var c := Condition("store_name", "ILIKE", TextParam("%" + q.storeName.value + "%"));
    assert ClauseHead(c) == " AND store_name ILIKE $";
    OneStep(sql, params, added, c, " AND store_name ILIKE $", k);
  }

  /** The exact-date block appends its own clause text and date. */
  lemma DateStep(q: SearchParams, sql: string, params: seq<Param>, added: seq<Condition>, k: nat)
    requires Built(sql, params, added) && k == |params| + 1 && Truthy(q.dateOfPurchase)
    ensures Built(sql + " AND date_of_purchase = $" + NatToString(k),
                  params + [TextParam(q.dateOfPurchase.value)],
                  added + DateCondition(q))
  {
    var c := Condition("date_of_purchase", "=", TextParam(q.dateOfPurchase.value));
    assert ClauseHead(c) == " AND date_of_purchase = $";
    OneStep(sql, params, added, c, " AND date_of_purchase = $", k);
  }

  /** The range block appends both comparisons, numbered `k` and `k + 1`, bound to (from, to). */
  lemma RangeStep(q: SearchParams, sql: string, params: seq<Param>, added: seq<Condition>, k: nat)
    requires Built(sql, params, added) && k == |params| + 1 && Truthy(q.dateFrom) && Truthy(q.dateTo)
    ensures Built(sql + " AND date_of_purchase >= $" + NatToString(k) + " AND date_of_purchase <= $" + NatToString(k + 1),
                  params + [TextParam(q.dateFrom.value), TextParam(q.dateTo.value)],
                  added + RangeCondition(q))
  {
    var lo := Condition("date_of_purchase", ">=", TextParam(q.dateFrom.value));
    var hi := Condition("date_of_purchase", "<=", TextParam(q.dateTo.value));
    RangeHeads(lo.value, hi.value);
    var sql1 := sql + " AND date_of_purchase >= $" + NatToString(k);
    OneStep(sql, params, added, lo, " AND date_of_purchase >= $", k);
    OneStep(sql1, params + [lo.value], added + [lo], hi, " AND date_of_purchase <= $", k + 1);
    AppendTwo(params, lo.value, hi.value);
    AppendTwo(added, lo, hi);
    assert RangeCondition(q) == [lo, hi];
  }

  /** The clause heads of the two range comparisons, as literal text. */
  lemma RangeHeads(from: Param, to: Param)
    ensures ClauseHead(Condition("date_of_purchase", ">=", from)) == " AND date_of_purchase >= $"
    ensures ClauseHead(Condition("date_of_purchase", "<=", to)) == " AND date_of_purchase <= $"
  {
  }

  lemma AppendTwo<T>(s: seq<T>, a: T, b: T)
    ensures s + [a] + [b] == s + [a, b]
  {
  }

  /** The approval block appends its own clause text and boolean. */
  lemma ApprovedStep(q: SearchParams, sql: string, params: seq<Param>, added: seq<Condition>, k: nat)
    requires Built(sql, params, added) && k == |params| + 1 && q.approved.Some?
    ensures Built(sql + " AND approved = $" + NatToString(k),
                  params + [BoolParam(q.approved.value == "true")],
                  added + ApprovedCondition(q))
  {
    var c := Condition("approved", "=", BoolParam(q.approved.value == "true"));
    assert ClauseHead(c) == " AND approved = $";
    OneStep(sql, params, added, c, " AND approved = $", k);
  }

  /** A block that does not apply leaves `(sql, params)` describing the same comparisons. */
  lemma Skip(sql: string, params: seq<Param>, added: seq<Condition>, cs: seq<Condition>)
    requires Built(sql, params, added) && cs == []
    ensures Built(sql, params, added + cs)
  {
    assert added + cs == added;
  }

  /**
   * The handler's body: `sql` grows with `+=`, `params` with `push`, and
   * `paramIndex` names the next placeholder, so it stays `|params| + 1`.
   * The result is the statement and parameter list of `Conditions(q)`;
   * the handler's final `paramIndex` is returned so that its relation to
   * `params` can be stated.
   */
  method BuildQuery(q: SearchParams) returns (sql: string, params: seq<Param>, paramIndex: nat)
    ensures sql == QueryText(q)
    ensures params == QueryParams(q)
    ensures paramIndex == |params| + 1
  {
    sql := SelectPrefix;
    params := [];
    paramIndex := 1;
    assert Built(sql, params, []);

    if Truthy(q.storeName) {
      StoreStep(q, sql, params, [], paramIndex);
      sql := sql + " AND store_name ILIKE $" + NatToString(paramIndex);
      params := params + [TextParam("%" + q.storeName.value + "%")];
      paramIndex := paramIndex + 1;
    } else {
      Skip(sql, params, [], StoreCondition(q));
    }
    ghost var added := [] + StoreCondition(q);
    assert Built(sql, params, added) && paramIndex == |params| + 1;

    if Truthy(q.dateOfPurchase) {
      DateStep(q, sql, params, added, paramIndex);
      sql := sql + " AND date_of_purchase = $" + NatToString(paramIndex);
      params := params + [TextParam(q.dateOfPurchase.value)];
      paramIndex := paramIndex + 1;
    } else {
      Skip(sql, params, added, DateCondition(q));
    }
    added := added + DateCondition(q);
    assert Built(sql, params, added) && paramIndex == |params| + 1;

    if Truthy(q.dateFrom) && Truthy(q.dateTo) {
      RangeStep(q, sql, params, added, paramIndex);
      sql := sql + " AND date_of_purchase >= $" + NatToString(paramIndex)
                 + " AND date_of_purchase <= $" + NatToString(paramIndex + 1);
      params := params + [TextParam(q.dateFrom.value), TextParam(q.dateTo.value)];
      paramIndex := paramIndex + 2;
    } else {
      Skip(sql, params, added, RangeCondition(q));
    }
    added := added + RangeCondition(q);
    assert Built(sql, params, added) && paramIndex == |params| + 1;

    if q.approved.Some? {
      ApprovedStep(q, sql, params, added, paramIndex);
      sql := sql + " AND approved = $" + NatToString(paramIndex);
      params := params + [BoolParam(q.approved.value == "true")];
      paramIndex := paramIndex + 1;
    } else {
      Skip(sql, params, added, ApprovedCondition(q));
    }
    added := added + ApprovedCondition(q);
    assert added == Conditions(q);
    Finish(q, sql, params);

    sql := sql + OrderSuffix;
  }

  /** After the last block, appending the `ORDER BY` completes the statement of `Conditions(q)`. */
  lemma Finish(q: SearchParams, sql: string, params: seq<Param>)
    requires Built(sql, params, Conditions(q))
    ensures sql + OrderSuffix == QueryText(q)
    ensures params == QueryParams(q)
  {
  }

  // Properties of the statement and parameter list a request produces.

  /** Whatever the filters, the statement starts with the fixed `SELECT` and ends with the fixed `ORDER BY`. */
  lemma QueryTextFrame(q: SearchParams)
    ensures var sql := QueryText(q);
      && |SelectPrefix| + |OrderSuffix| <= |sql|
      && sql[..|SelectPrefix|] == SelectPrefix
      && sql[|sql| - |OrderSuffix|..] == OrderSuffix
  {
    var mid := Render(Conditions(q), 1);
    var sql := SelectPrefix + mid + OrderSuffix;
    assert sql == SelectPrefix + (mid + OrderSuffix);
    assert sql[..|SelectPrefix|] == SelectPrefix;
  }

  /** Splitting the comparisons at `i` splits their text; the `i`-th one carries placeholder `k + i`. */
  lemma {:induction false} RenderAt(cs: seq<Condition>, i: nat, k: nat)
    requires i < |cs|
    ensures Render(cs, k) == Render(cs[..i], k) + Fragment(cs[i], k + i) + Render(cs[i + 1..], k + i + 1)
  {
    assert cs == cs[..i] + [cs[i]] + cs[i + 1..];
    RenderAppend(cs[..i] + [cs[i]], cs[i + 1..], k);
    RenderAppend(cs[..i], [cs[i]], k);
    assert Render([cs[i]], k + i) == Fragment(cs[i], k + i) + Render([], k + i + 1);
  }

  lemma {:induction false} ValuesAt(cs: seq<Condition>, i: nat)
    requires i < |cs|
    ensures Values(cs)[i] == cs[i].value
    decreases i
  {
    if i > 0 {
      ValuesAt(cs[1..], i - 1);
    }
  }

  /**
   * Placeholder numbering matches the parameter list: the `i`-th comparison
   * of the statement uses placeholder `$(i + 1)`, and the value at position
   * `i` of the parameter list is that comparison's own value. So every
   * placeholder lies in 1..|params|.
   */
  lemma PlaceholderBinding(q: SearchParams, i: nat)
    requires i < |QueryParams(q)|
    ensures |QueryParams(q)| == |Conditions(q)|
    ensures Render(Conditions(q), 1) == Render(Conditions(q)[..i], 1)
                                       + Fragment(Conditions(q)[i], i + 1)
                                       + Render(Conditions(q)[i + 1..], i + 2)
    ensures QueryParams(q)[i] == Conditions(q)[i].value
  {
    var cs := Conditions(q);
    RenderAt(cs, i, 1);
    ValuesAt(cs, i);
  }

  /** The values bound to the comparisons on `column` with operator `op`, in order. */
  function Bound(cs: seq<Condition>, column: string, op: string): seq<Param>
  {
    if cs == [] then []
    else (if cs[0].column == column && cs[0].op == op then [cs[0].value] else [])
         + Bound(cs[1..], column, op)
  }

  lemma {:induction false} BoundAppend(a: seq<Condition>, b: seq<Condition>, column: string, op: string)
    ensures Bound(a + b, column, op) == Bound(a, column, op) + Bound(b, column, op)
    decreases |a|
  {
    if a == [] {
      assert a + b == b;
    } else {
      assert (a + b)[1..] == a[1..] + b;
      BoundAppend(a[1..], b, column, op);
    }
  }

  /**
   * What each filter contributes, as an independent statement per
   * parameter: the store-name pattern `%name%` only for a non-empty name;
   * the raw date only for a non-empty date; the range bounds only when
   * both ends are non-empty; and, whenever `approved` is present (even
   * as ""), the boolean `approved == "true"`.
   */
  lemma FilterBindings(q: SearchParams)
    ensures Bound(Conditions(q), "store_name", "ILIKE")
            == if Truthy(q.storeName) then [TextParam("%" + q.storeName.value + "%")] else []
    ensures Bound(Conditions(q), "date_of_purchase", "=")
            == if Truthy(q.dateOfPurchase) then [TextParam(q.dateOfPurchase.value)] else []
    ensures Bound(Conditions(q), "date_of_purchase", ">=")
            == if Truthy(q.dateFrom) && Truthy(q.dateTo) then [TextParam(q.dateFrom.value)] else []
    ensures Bound(Conditions(q), "date_of_purchase", "<=")
            == if Truthy(q.dateFrom) && Truthy(q.dateTo) then [TextParam(q.dateTo.value)] else []
    ensures Bound(Conditions(q), "approved", "=")
            == if q.approved.Some? then [BoolParam(q.approved.value == "true")] else []
  {
    StoreBinding(q);
    DateBinding(q);
    RangeFromBinding(q);
    RangeToBinding(q);
    ApprovedBinding(q);
  }

  lemma StoreBinding(q: SearchParams)
    ensures Bound(Conditions(q), "store_name", "ILIKE")
            == if Truthy(q.storeName) then [TextParam("%" + q.storeName.value + "%")] else []
  {
    BoundSplit(q, "store_name", "ILIKE");
    BoundStore(q, "store_name", "ILIKE");
    BoundDate(q, "store_name", "ILIKE");
    BoundRange(q, "store_name", "ILIKE");
    BoundApproved(q, "store_name", "ILIKE");
  }

  lemma DateBinding(q: SearchParams)
    ensures Bound(Conditions(q), "date_of_purchase", "=")
            == if Truthy(q.dateOfPurchase) then [TextParam(q.dateOfPurchase.value)] else []
  {
    BoundSplit(q, "date_of_purchase", "=");
    BoundStore(q, "date_of_purchase", "=");
    BoundDate(q, "date_of_purchase", "=");
    BoundRange(q, "date_of_purchase", "=");
    BoundApproved(q, "date_of_purchase", "=");
  }

  lemma RangeFromBinding(q: SearchParams)
    ensures Bound(Conditions(q), "date_of_purchase", ">=")
            == if Truthy(q.dateFrom) && Truthy(q.dateTo) then [TextParam(q.dateFrom.value)] else []
  {
    BoundSplit(q, "date_of_purchase", ">=");
    BoundStore(q, "date_of_purchase", ">=");
    BoundDate(q, "date_of_purchase", ">=");
    BoundRange(q, "date_of_purchase", ">=");
    BoundApproved(q, "date_of_purchase", ">=");
  }

  lemma RangeToBinding(q: SearchParams)
    ensures Bound(Conditions(q), "date_of_purchase", "<=")
            == if Truthy(q.dateFrom) && Truthy(q.dateTo) then [TextParam(q.dateTo.value)] else []
  {
    BoundSplit(q, "date_of_purchase", "<=");
    BoundStore(q, "date_of_purchase", "<=");
    BoundDate(q, "date_of_purchase", "<=");
    BoundRange(q, "date_of_purchase", "<=");
    BoundApproved(q, "date_of_purchase", "<=");
  }

  lemma ApprovedBinding(q: SearchParams)
    ensures Bound(Conditions(q), "approved", "=")
            == if q.approved.Some? then [BoolParam(q.approved.value == "true")] else []
  {
    BoundSplit(q, "approved", "=");
    BoundStore(q, "approved", "=");
    BoundDate(q, "approved", "=");
    BoundRange(q, "approved", "=");
    BoundApproved(q, "approved", "=");
  }

  /** `Bound` of one comparison or of the two range comparisons. */
  lemma BoundShort(cs: seq<Condition>, column: string, op: string)
    requires |cs| <= 2
    ensures Bound(cs, column, op)
            == (if |cs| >= 1 && cs[0].column == column && cs[0].op == op then [cs[0].value] else [])
               + (if |cs| == 2 && cs[1].column == column && cs[1].op == op then [cs[1].value] else [])
  {
    if |cs| == 2 {
      assert cs[1..][1..] == [];
    } else if |cs| == 1 {
      assert cs[1..] == [];
    }
  }

  /** The comparisons on one column and operator, block by block of the handler. */
  lemma BoundSplit(q: SearchParams, column: string, op: string)
    ensures Bound(Conditions(q), column, op)
            == Bound(StoreCondition(q), column, op) + Bound(DateCondition(q), column, op)
               + Bound(RangeCondition(q), column, op) + Bound(ApprovedCondition(q), column, op)
  {
    var s, d, r, a := StoreCondition(q), DateCondition(q), RangeCondition(q), ApprovedCondition(q);
    BoundAppend(s + d + r, a, column, op);
    BoundAppend(s + d, r, column, op);
    BoundAppend(s, d, column, op);
  }

  lemma BoundStore(q: SearchParams, column: string, op: string)
    ensures Bound(StoreCondition(q), column, op)
            == if Truthy(q.storeName) && column == "store_name" && op == "ILIKE"
               then [TextParam("%" + q.storeName.value + "%")] else []
  {
    BoundShort(StoreCondition(q), column, op);
  }

  lemma BoundDate(q: SearchParams, column: string, op: string)
    ensures Bound(DateCondition(q), column, op)
            == if Truthy(q.dateOfPurchase) && column == "date_of_purchase" && op == "="
               then [TextParam(q.dateOfPurchase.value)] else []
  {
    BoundShort(DateCondition(q), column, op);
  }

  lemma BoundRange(q: SearchParams, column: string, op: string)
    ensures Bound(RangeCondition(q), column, op)
            == if Truthy(q.dateFrom) && Truthy(q.dateTo) && column == "date_of_purchase"
               then (if op == ">=" then [TextParam(q.dateFrom.value)] else [])
                    + (if op == "<=" then [TextParam(q.dateTo.value)] else [])
               else []
  {
    BoundShort(RangeCondition(q), column, op);
  }

  lemma BoundApproved(q: SearchParams, column: string, op: string)
    ensures Bound(ApprovedCondition(q), column, op)
            == if q.approved.Some? && column == "approved" && op == "="
               then [BoolParam(q.approved.value == "true")] else []
  {
    BoundShort(ApprovedCondition(q), column, op);
  }

  /** The approved parameter binds true exactly for the text "true": "", "false" and "TRUE" bind false. */
  lemma ApprovedBindsTrueOnlyForTrue(q: SearchParams, text: string)
    requires q.approved == Some(text)
    ensures Bound(Conditions(q), "approved", "=") == [BoolParam(text == "true")]
    ensures text in {"", "false", "TRUE"} ==> Bound(Conditions(q), "approved", "=") == [BoolParam(false)]
  {
    FilterBindings(q);
  }

  /** Position of a comparison in the handler's fixed clause order. */
  function Rank(c: Condition): nat
  {
    if c.column == "store_name" then 0
    else if c.column == "date_of_purchase" && c.op == "=" then 1
    else if c.column == "date_of_purchase" && c.op == ">=" then 2
    else if c.column == "date_of_purchase" && c.op == "<=" then 3
    else 4
  }

  /**
   * The clauses come in the fixed order store, date, range (from, to),
   * approved, each at most once, so there are at most five parameters.
   */
  lemma ClauseOrder(q: SearchParams)
    ensures forall i, j :: 0 <= i < j < |Conditions(q)| ==> Rank(Conditions(q)[i]) < Rank(Conditions(q)[j])
    ensures |QueryParams(q)| <= 5
  {
    var cs := Conditions(q);
    var s, d, r, a := StoreCondition(q), DateCondition(q), RangeCondition(q), ApprovedCondition(q);
    assert forall i :: 0 <= i < |s| ==> Rank(cs[i]) == 0;
    assert forall i :: |s| <= i < |s| + |d| ==> Rank(cs[i]) == 1;
    assert forall i :: |s| + |d| <= i < |s| + |d| + |r| ==> Rank(cs[i]) == 2 + i - |s| - |d|;
    assert forall i :: |s| + |d| + |r| <= i < |cs| ==> Rank(cs[i]) == 4;
  }

  /**
   * Every comparison is one of the five the filters bind: the number of
   * clauses is the sum of the five per-filter bindings `FilterBindings`
   * states, so no other clause can appear.
   */
  lemma NoStrayClause(q: SearchParams)
    ensures var cs := Conditions(q);
      |cs| == |Bound(cs, "store_name", "ILIKE")| + |Bound(cs, "date_of_purchase", "=")|
              + |Bound(cs, "date_of_purchase", ">=")| + |Bound(cs, "date_of_purchase", "<=")|
              + |Bound(cs, "approved", "=")|
  {
    FilterBindings(q);
  }

  /** With no usable filter the statement is the bare select with its ordering, and nothing is bound. */
  lemma NoFilters(q: SearchParams)
    requires !Truthy(q.storeName) && !Truthy(q.dateOfPurchase)
    requires !Truthy(q.dateFrom) && !Truthy(q.dateTo) && q.approved.None?
    ensures QueryText(q) == SelectPrefix + OrderSuffix
    ensures QueryParams(q) == []
  {
    assert Conditions(q) == [];
  }

  /** Only one end of the date range leaves the statement and the parameters as if neither were given. */
  lemma OneSidedRangeIgnored(q: SearchParams)
    requires Truthy(q.dateFrom) != Truthy(q.dateTo)
    ensures QueryText(q) == QueryText(q.(dateFrom := None, dateTo := None))
    ensures QueryParams(q) == QueryParams(q.(dateFrom := None, dateTo := None))
  {
    assert Conditions(q) == Conditions(q.(dateFrom := None, dateTo := None));
  }
}
