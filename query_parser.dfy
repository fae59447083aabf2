/**
 * The query parser: one QueryParameter object, filled in clause by clause by ParseQuery
 * according to a numeric priority.  Each extractor is a loop over the query's tokens proved to
 * compute the matching clause function of QueryClauses.
 */
module QueryParsers {
  import opened Wrappers
  import opened Text
  import opened Restrictions
  import opened AggregateFunctions
  import opened QueryParameters
  import opened QueryClauses

  /** The plan after one ParseQuery call, and the exception that call raised, if any. */
  datatype Step = Step(plan: Plan, error: Option<Exception>)

  /**
   * What ParseQuery(q, priority) does to the clauses: 1 aggregates, 2 fields, 3 file,
   * 4 fields then restrictions, 5 group-by, 6 order-by, 7 group-by then order-by,
   * 8 to 10 logical operators, anything else nothing.  A clause assigned before an exception
   * keeps its new value.
   */
  function ParseStep(p: Plan, q: string, priority: int): Step
  {
    if priority == 1 then
      match AggregatesSpec(q)
      case Ok(a) => Step(p.(AggregateFunctions := a), None)
      case Throw(e) => Step(p, Some(e))
    else if priority == 2 then
      Step(p.(Fields := FieldsSpec(q)), None)
    else if priority == 3 then
      match FileNameSpec(q)
      case Ok(f) => Step(p.(File := f), None)
      case Throw(e) => Step(p, Some(e))
    else if priority == 4 then
      var withFields := p.(Fields := FieldsSpec(q));
      match RestrictionsSpec(q)
      case Ok(rs) => Step(withFields.(Restrictions := rs), None)
      case Throw(e) => Step(withFields, Some(e))
    else if priority == 5 then
      Step(p.(GroupByFields := GroupBySpec(q)), None)
    else if priority == 6 then
      match OrderBySpec(q)
      case Ok(o) => Step(p.(OrderByFields := o), None)
      case Throw(e) => Step(p, Some(e))
    else if priority == 7 then
      var withGroups := p.(GroupByFields := GroupBySpec(q));
      match OrderBySpec(q)
      case Ok(o) => Step(withGroups.(OrderByFields := o), None)
      case Throw(e) => Step(withGroups, Some(e))
    else if 8 <= priority <= 10 then
      match LogicalOperatorsSpec(q)
      case Ok(ops) => Step(p.(LogicalOperators := ops), None)
      case Throw(e) => Step(p, Some(e))
    else
      Step(p, None)
  }

  /** The clauses of a plan, as names. */
  datatype Clause = FileClause | FieldsClause | AggregatesClause | RestrictionsClause
                  | GroupByClause | OrderByClause | LogicalOperatorsClause

  /** The clauses a priority selects. */
  function Touched(priority: int): set<Clause>
  {
    if priority == 1 then {AggregatesClause}
    else if priority == 2 then {FieldsClause}
    else if priority == 3 then {FileClause}
    else if priority == 4 then {FieldsClause, RestrictionsClause}
    else if priority == 5 then {GroupByClause}
    else if priority == 6 then {OrderByClause}
    else if priority == 7 then {GroupByClause, OrderByClause}
    else if 8 <= priority <= 10 then {LogicalOperatorsClause}
    else {}
  }

  /** p and p2 hold the same value in every clause outside cs. */
  predicate AgreeOutside(p: Plan, p2: Plan, cs: set<Clause>)
  {
    && (FileClause !in cs ==> p.File == p2.File)
    && (FieldsClause !in cs ==> p.Fields == p2.Fields)
    && (AggregatesClause !in cs ==> p.AggregateFunctions == p2.AggregateFunctions)
    && (RestrictionsClause !in cs ==> p.Restrictions == p2.Restrictions)
    && (GroupByClause !in cs ==> p.GroupByFields == p2.GroupByFields)
    && (OrderByClause !in cs ==> p.OrderByFields == p2.OrderByFields)
    && (LogicalOperatorsClause !in cs ==> p.LogicalOperators == p2.LogicalOperators)
  }

  /** A call changes only the clauses its priority selects; a priority outside 1..10 changes nothing. */
  lemma ParseStepFrame(p: Plan, q: string, priority: int)
    ensures AgreeOutside(p, ParseStep(p, q, priority).plan, Touched(priority))
    ensures Touched(priority) == {} ==> ParseStep(p, q, priority) == Step(p, None)
  {
  }

  /** Repeating a call with the same query and priority changes nothing more. */
  lemma ParseStepIdempotent(p: Plan, q: string, priority: int)
    ensures var s := ParseStep(p, q, priority);
            ParseStep(s.plan, q, priority) == s
  {
  }

  /** Trims every entry of the array, from the last entry to the first. */
  method TrimInPlace(a: array<string>)
    modifies a
    ensures a[..] == TrimEach(old(a[..]))
  {
    ghost var target := TrimEach(a[..]);
    var count := a.Length - 1;
    while count >= 0
      invariant -1 <= count < a.Length
      invariant forall k :: count < k < a.Length ==> a[k] == target[k]
      invariant forall k :: 0 <= k <= count ==> a[k] == old(a[k])
    {
      a[count] := Trim(a[count]);
      count := count - 1;
    }
    assert a[..] == target;
  }

  /** One entry of the group-by loop: trimmed, then cut to its first word when "order by" follows past index 1. */
  method CutGroupColumn(column: string) returns (r: string)
    ensures r == GroupColumn(column)
  {
    r := Trim(column);
    if IndexOf(r, "order by") > 1 {
      r := Split(r, ' ')[0];
    }
  }

  /**
   * Turns every entry of the array into its group column, from the last entry to the first:
   * trimmed, then cut to its first word when "order by" follows past index 1.
   */
  method GroupColumnsInPlace(a: array<string>)
    modifies a
    ensures a[..] == GroupColumns(old(a[..]))
  {
    ghost var target := GroupColumns(a[..]);
    var count := a.Length - 1;
    while count >= 0
      invariant -1 <= count < a.Length
      invariant forall k :: count < k < a.Length ==> a[k] == target[k]
      invariant forall k :: 0 <= k <= count ==> a[k] == old(a[k])
    {
      a[count] := CutGroupColumn(a[count]);
      count := count - 1;
    }
    assert a[..] == target;
  }

  /** The connectives among the first count tokens that follow the token at index w, when w < count. */
  ghost function LogicalSoFar(query: seq<string>, w: int, count: int): seq<string>
    requires 0 <= count <= |query|
  {
    if 0 <= w < count then KeepLogical(query[w + 1..count]) else []
  }

  lemma KeepLogicalStep(ws: seq<string>, from: int, count: int)
    requires 0 <= from <= count < |ws|
    ensures KeepLogical(ws[from..count + 1])
            == KeepLogical(ws[from..count]) + (if IsLogical(ws[count]) then [ws[count]] else [])
  {
    assert ws[from..count + 1][..count - from] == ws[from..count];
    assert ws[from..count + 1][count - from] == ws[count];
  }

  /** The first index of x lies among the first count + 1 positions when it does among the first count or x sits at count. */
  lemma FirstIndexStep(ts: seq<string>, x: string, count: int)
    requires 0 <= count < |ts|
    ensures var w := FirstIndex(ts, x);
            (0 <= w < count + 1) == (0 <= w < count || ts[count] == x)
  {
  }

  /** One more token: a connective after the token at index w is kept. */
  lemma LogicalStep(query: seq<string>, w: int, count: int)
    requires 0 <= count < |query|
    ensures LogicalSoFar(query, w, count + 1)
            == LogicalSoFar(query, w, count) + (if 0 <= w < count && IsLogical(query[count]) then [query[count]] else [])
  {
    if 0 <= w < count {
      KeepLogicalStep(query, w + 1, count);
    } else if w == count {
      assert query[w + 1..count + 1] == [];
    }
  }

  lemma TerminatedStep(ops: seq<string>, x: string)
    ensures Terminated(ops + [x]) == Terminated(ops) + x + ","
  {
    assert (ops + [x])[..|ops|] == ops;
  }

  /** One more token of the scan for connectives, in the terms of LogicalOperatorText's loop. */
  lemma LogicalTextStep(query: seq<string>, w: int, count: int, ops: seq<string>)
    requires 0 <= count < |query| && w == FirstIndex(query, "where")
    requires ops == LogicalSoFar(query, w, count)
    ensures (0 <= w < count + 1) == (0 <= w < count || query[count] == "where")
    ensures query[count] == "where" ==> LogicalSoFar(query, w, count + 1) == ops
    ensures query[count] != "where" ==>
              LogicalSoFar(query, w, count + 1)
              == ops + (if 0 <= w < count && IsLogical(query[count]) then [query[count]] else [])
    ensures Terminated(ops + ["and"]) == Terminated(ops) + "and" + ","
    ensures Terminated(ops + ["or"]) == Terminated(ops) + "or" + ","
  {
    LogicalStep(query, w, count);
    FirstIndexStep(query, "where", count);
    TerminatedStep(ops, "and");
    TerminatedStep(ops, "or");
  }

  /** RestrictionsOf on the pieces from index i, unfolded once in terms of piece i and the pieces after it. */
  lemma RestrictionsOfAt(conds: seq<string>, i: int, orSplitDone: bool)
    requires 0 <= i < |conds|
    ensures !orSplitDone && IndexOf(conds[i], "or") > 1 ==>
              RestrictionsOf(conds[i..], orSplitDone)
              == (match OrPair(conds[i])
                  case Throw(e) => Throw(e)
                  case Ok(pair) => Prepend(pair, RestrictionsOf(conds[i + 1..], true)))
    ensures !(!orSplitDone && IndexOf(conds[i], "or") > 1) ==>
              RestrictionsOf(conds[i..], orSplitDone)
              == (var cf := Split(conds[i], ' ');
                  if |cf| < 3 then Throw(IndexOutOfRange)
                  else Prepend([Restriction(cf[0], cf[2], cf[1])], RestrictionsOf(conds[i + 1..], orSplitDone)))
  {
    assert conds[i..][0] == conds[i] && conds[i..][1..] == conds[i + 1..];
  }

  lemma PrependNothing<T>(r: Result<seq<T>>)
    ensures Prepend([], r) == r
  {
    if r.Ok? {
      assert [] + r.value == r.value;
    }
  }

  lemma PrependPrepend<T>(xs: seq<T>, ys: seq<T>, r: Result<seq<T>>)
    ensures Prepend(xs, Prepend(ys, r)) == Prepend(xs + ys, r)
  {
    if r.Ok? {
      assert xs + (ys + r.value) == xs + ys + r.value;
    }
  }

  /** The outcome of a list whose first entries are already built. */
  function Prepend<T>(prefix: seq<T>, r: Result<seq<T>>): Result<seq<T>>
  {
    match r
    case Ok(rest) => Ok(prefix + rest)
    case Throw(e) => Throw(e)
  }

  class QueryParser {
    /** The one object every ParseQuery call fills in and returns. */
    const queryParameter: QueryParameter

    constructor()
      ensures fresh(queryParameter)
      ensures queryParameter.Snapshot() == EmptyPlan
      ensures queryParameter.ConditionGroups == [] && queryParameter.QueryType == ""
    {
      queryParameter := new QueryParameter();
    }

    /**
     * Fills in the clauses the priority selects and returns the shared object; an exception of an
     * extractor propagates, leaving the clauses assigned before it.
     */
    method ParseQuery(queryString: string, priority: int) returns (r: Result<QueryParameter>)
      modifies queryParameter
      ensures var s := ParseStep(old(queryParameter.Snapshot()), queryString, priority);
              && queryParameter.Snapshot() == s.plan
              && r == (if s.error.None? then Ok(queryParameter) else Throw(s.error.value))
      ensures queryParameter.ConditionGroups == old(queryParameter.ConditionGroups)
      ensures queryParameter.QueryType == old(queryParameter.QueryType)
    {
      if priority == 1 {
        var aggregates := GetAggregateFunctions(queryString);
        if aggregates.Throw? {
          return Throw(aggregates.error);
        }
        queryParameter.AggregateFunctions := aggregates.value;
      } else if priority == 2 {
        queryParameter.Fields := GetFields(queryString);
      } else if priority == 3 {
        var file := GetFileName(queryString);
        if file.Throw? {
          return Throw(file.error);
        }
        queryParameter.File := file.value;
      } else if priority == 4 {
        queryParameter.Fields := GetFields(queryString);
        var restrictions := GetRestrictions(queryString);
        if restrictions.Throw? {
          return Throw(restrictions.error);
        }
        queryParameter.Restrictions := restrictions.value;
      } else if priority == 5 {
        queryParameter.GroupByFields := GetGroupByFields(queryString);
      } else if priority == 6 {
        var orderBy := GetOrderByFields(queryString);
        if orderBy.Throw? {
          return Throw(orderBy.error);
        }
        queryParameter.OrderByFields := orderBy.value;
      } else if priority == 7 {
        queryParameter.GroupByFields := GetGroupByFields(queryString);
        var orderBy := GetOrderByFields(queryString);
        if orderBy.Throw? {
          return Throw(orderBy.error);
        }
        queryParameter.OrderByFields := orderBy.value;
      } else if 8 <= priority <= 10 {
        var operators := GetLogicalOperators(queryString);
        if operators.Throw? {
          return Throw(operators.error);
        }
        queryParameter.LogicalOperators := operators.value;
      }
      return Ok(queryParameter);
    }

    /** The selected fields: token 1 split on ','. */
    method GetFields(queryString: string) returns (r: seq<string>)
      ensures r == FieldsSpec(queryString)
    {
      var query := Split(queryString, ' ');
      var queryFieldsText := "";
      var count := 0;
      while count < |query|
        invariant 0 <= count <= |query|
        invariant count <= 1 && queryFieldsText == ""
      {
        if count == 1 {
          queryFieldsText := query[count];
          break;
        }
        count := count + 1;
      }
      r := Split(queryFieldsText, ',');
    }

    /** The where-clause restrictions. */
    method GetRestrictions(queryString: string) returns (r: Result<seq<Restriction>>)
      ensures r == RestrictionsSpec(queryString)
    {
      var query := Split(queryString, ' ');
      var whereCondition := WhereCondition(query);
      if |whereCondition| == 0 {
        return Ok([]);
      }
      var queryCondition := Trim(whereCondition);
      var conditions := SplitConditions(queryCondition);
      r := RestrictionsOfConditions(conditions);
    }

    /** The restrictions of the text before the first "or" and of the trimmed text after it. */
    method SplitOrCondition(fields: string) returns (r: Result<seq<Restriction>>)
      requires IndexOf(fields, "or") > 1
      ensures r == OrPair(fields)
    {
      var orConditions := SplitOn(fields, "or");
      SplitOnSecondPiece(fields, "or");
      var conditionFields := Split(orConditions[0], ' ');
      if |conditionFields| < 3 {
        return Throw(IndexOutOfRange);
      }
      var first := Restriction(conditionFields[0], conditionFields[2], conditionFields[1]);
      conditionFields := Split(Trim(orConditions[1]), ' ');
      if |conditionFields| < 3 {
        return Throw(IndexOutOfRange);
      }
      var second := Restriction(conditionFields[0], conditionFields[2], conditionFields[1]);
      return Ok([first, second]);
    }

    /** The tokens from position 5 on, each followed by one space. */
    method WhereCondition(query: seq<string>) returns (whereCondition: string)
      requires forall k :: 0 <= k < |query| ==> ' ' !in query[k]
      ensures |query| <= 5 ==> whereCondition == ""
      ensures |query| > 5 ==> whereCondition == WhereText(query[5..]) && |whereCondition| > 0
    {
      whereCondition := "";
      var count := 0;
      while count < |query|
        invariant 0 <= count <= |query|
        invariant whereCondition == if count <= 5 then "" else WhereText(query[5..count])
      {
        if count > 4 {
          // A token holds no space, so it never equals "group by" or "order by": the stop test
          // there cannot fire.
          assert query[count] != "group by" && query[count] != "order by";
          whereCondition := whereCondition + query[count] + " ";
          assert query[5..count + 1][..count - 5] == query[5..count];
        }
        count := count + 1;
      }
      if |query| > 5 {
        assert query[5..count] == query[5..];
      }
    }

    /** The where-text cut into condition pieces. */
    method SplitConditions(queryCondition: string) returns (conditions: seq<string>)
      ensures conditions == Conditions(queryCondition)
    {
      if IndexOf(queryCondition, "and") > 1 {
        var pieces := SplitOn(queryCondition, "and");
        var trimmed := new string[|pieces|](k requires 0 <= k < |pieces| => pieces[k]);
        assert trimmed[..] == pieces;
        TrimInPlace(trimmed);
        conditions := trimmed[..];
      } else if IndexOf(queryCondition, "or") > 1 {
        conditions := SplitOn(queryCondition, "or");
      } else {
        conditions := [queryCondition];
      }
    }

    /** One restriction per piece, two for the first piece holding "or". */
    method RestrictionsOfConditions(conditions: seq<string>) returns (r: Result<seq<Restriction>>)
      ensures r == RestrictionsOf(conditions, false)
    {
      var restrictionList: seq<Restriction> := [];
      var fieldCount := 0;
      var i := 0;
      assert conditions[0..] == conditions;
      PrependNothing(RestrictionsOf(conditions, false));
      while i < |conditions|
        invariant 0 <= i <= |conditions| && fieldCount >= 0
        invariant Prepend(restrictionList, RestrictionsOf(conditions[i..], fieldCount > 0))
                  == RestrictionsOf(conditions, false)
      {
        var fields := conditions[i];
        RestrictionsOfAt(conditions, i, fieldCount > 0);
        if fieldCount == 0 && IndexOf(fields, "or") > 1 {
          var pair := SplitOrCondition(fields);
          if pair.Throw? {
            return Throw(IndexOutOfRange);
          }
          PrependPrepend(restrictionList, pair.value, RestrictionsOf(conditions[i + 1..], true));
          restrictionList := restrictionList + pair.value;
          fieldCount := fieldCount + 1;
          i := i + 1;
          continue;
        }
        var conditionFields := Split(fields, ' ');
        if |conditionFields| < 3 {
          return Throw(IndexOutOfRange);
        }
        var restriction := Restriction(conditionFields[0], conditionFields[2], conditionFields[1]);
        PrependPrepend(restrictionList, [restriction], RestrictionsOf(conditions[i + 1..], fieldCount > 0));
        restrictionList := restrictionList + [restriction];
        i := i + 1;
      }
      assert conditions[i..] == [];
      assert RestrictionsOf(conditions[i..], fieldCount > 0) == Ok([]);
      assert restrictionList + [] == restrictionList;
      return Ok(restrictionList);
    }

    /** The "and"/"or" tokens after "where", gathered as "op," text and split with empty entries removed. */
    method GetLogicalOperators(queryString: string) returns (r: Result<seq<string>>)
      ensures r == LogicalOperatorsSpec(queryString)
    {
      var query := Split(queryString, ' ');
      var logicalOperator := LogicalOperatorText(query);
      if |logicalOperator| > 0 {
        SplitTerminated(LogicalOperatorsOf(query));
        return Ok(RemoveEmpty(Split(logicalOperator, ',')));
      }
      // No operator was found: the array stays null and ToList throws.
      return Throw(ArgumentNull);
    }

    /** The text "op,op,...," of the "and"/"or" tokens that follow a "where" token. */
    method LogicalOperatorText(query: seq<string>) returns (logicalOperator: string)
      ensures logicalOperator == Terminated(LogicalOperatorsOf(query))
    {
      var isWhere := false;
      logicalOperator := "";
      ghost var w := FirstIndex(query, "where");
      ghost var ops: seq<string> := [];
      var count := 0;
      while count < |query|
        invariant 0 <= count <= |query|
        invariant isWhere == (0 <= w < count)
        invariant ops == LogicalSoFar(query, w, count)
        invariant logicalOperator == Terminated(ops)
      {
        LogicalTextStep(query, w, count, ops);
        if query[count] == "where" {
          isWhere := true;
          count := count + 1;
          continue;
        }
        if isWhere && query[count] == "and" {
          logicalOperator := logicalOperator + "and" + ",";
          ops := ops + ["and"];
        }
        if isWhere && query[count] == "or" {
          logicalOperator := logicalOperator + "or" + ",";
          ops := ops + ["or"];
        }
        count := count + 1;
      }
      if 0 <= w {
        assert query[w + 1..count] == query[w + 1..];
      }
    }

    /** The aggregate calls of token 1, in order. */
    method GetAggregateFunctions(queryString: string) returns (r: Result<seq<AggregateFunction>>)
      ensures r == AggregatesSpec(queryString)
    {
      var query := Split(queryString, ' ');
      var aggregateFunctions: Option<seq<string>> := None;
      var count := 0;
      while count < |query|
        invariant 0 <= count <= |query|
        invariant count <= 1 && aggregateFunctions == None
      {
        if count == 1 {
          aggregateFunctions := Some(Split(query[count], ','));
          break;
        }
        count := count + 1;
      }
      if aggregateFunctions.None? {
        return Throw(NullReference);
      }
      var pieces := aggregateFunctions.value;
      assert |query| >= 2 && pieces == Split(query[1], ',');
      var aggregateFunctionList := AggregateList(pieces);
      return Ok(aggregateFunctionList);
    }

    /** The loop over the comma pieces of token 1: each piece with a "(" past index 0 becomes a call. */
    method AggregateList(pieces: seq<string>) returns (aggregateFunctionList: seq<AggregateFunction>)
      ensures aggregateFunctionList == AggregatesOf(pieces)
    {
      aggregateFunctionList := [];
      var i := 0;
      while i < |pieces|
        invariant 0 <= i <= |pieces|
        invariant aggregateFunctionList + AggregatesOf(pieces[i..]) == AggregatesOf(pieces)
      {
        var aggregateFields := pieces[i];
        assert pieces[i..][0] == aggregateFields && pieces[i..][1..] == pieces[i + 1..];
        var open := IndexOf(aggregateFields, "(");
        if open <= 0 {
          i := i + 1;
          continue;
        }
        var functionName := aggregateFields[..open];
        var field := RegexField(aggregateFields);
        aggregateFunctionList := aggregateFunctionList + [AggregateFunction(field, functionName)];
        i := i + 1;
      }
      assert pieces[i..] == [];
    }

    /** The trimmed comma pieces after "order by"; an error when there is no "order by" past index 0. */
    method GetOrderByFields(queryString: string) returns (r: Result<seq<string>>)
      ensures r == OrderBySpec(queryString)
    {
      if IndexOf(queryString, "order by") < 1 {
        return Throw(ArgumentNull);
      }
      var query := SplitOn(queryString, "order by");
      // "order by" occurs, so the split has a second piece.
      SplitOnSecondPiece(queryString, "order by");
      var pieces := Split(query[1], ',');
      var orderByColumns := new string[|pieces|](k requires 0 <= k < |pieces| => pieces[k]);
      assert orderByColumns[..] == pieces;
      TrimInPlace(orderByColumns);
      return Ok(orderByColumns[..]);
    }

    /** The group columns after "group by"; none when there is no "group by" past index 0. */
    method GetGroupByFields(queryString: string) returns (r: seq<string>)
      ensures r == GroupBySpec(queryString)
    {
      if IndexOf(queryString, "group by") < 1 {
        return [];
      }
      var query := SplitOn(queryString, "group by");
      // "group by" occurs, so the split has a second piece.
      SplitOnSecondPiece(queryString, "group by");
      var pieces := Split(query[1], ',');
      var groupByColumns := new string[|pieces|](k requires 0 <= k < |pieces| => pieces[k]);
      assert groupByColumns[..] == pieces;
      GroupColumnsInPlace(groupByColumns);
      return groupByColumns[..];
    }

    /** The token after the first "from" token. */
    method GetFileName(query: string) returns (r: Result<string>)
      ensures r == FileNameSpec(query)
    {
      var queryString := Split(query, ' ');
      var fileName := "";
      var count := 0;
      while count < |queryString|
        invariant 0 <= count <= |queryString|
        invariant forall j :: 0 <= j < count ==> queryString[j] != "from"
        invariant fileName == ""
      {
        if queryString[count] == "from" {
          count := count + 1;
          if count >= |queryString| {
            return Throw(IndexOutOfRange);
          }
          fileName := queryString[count];
          break;
        }
        count := count + 1;
      }
      return Ok(fileName);
    }
  }
}
