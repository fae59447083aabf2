/**
 * ExecuteQuery: the query is parsed in a fixed order of priorities, the file it names is
 * opened, a query type is chosen from the parsed clauses, and the processor's GetDataRow
 * answers it.  The file system is a parameter: a name maps to the file's lines, or to nothing
 * when there is no such file.
 */
module Queries {
  import opened Wrappers
  import opened Text
  import opened Restrictions
  import opened AggregateFunctions
  import opened QueryParameters
  import opened QueryClauses
  import opened QueryParsers
  import opened Filtering
  import opened DataSets
  import opened QueryResults
  import opened CsvQueryProcessors

  /** The parse calls after the file is opened: 2, 1, then 4 when there is no aggregate, then 5; the first exception stops them. */
  function PrepareSteps(p: Plan, q: string): Step
  {
    var s2 := ParseStep(p, q, 2);
    if s2.error.Some? then s2
    else
      var s1 := ParseStep(s2.plan, q, 1);
      if s1.error.Some? then s1
      else
        var s4 := if |s1.plan.AggregateFunctions| == 0 then ParseStep(s1.plan, q, 4) else s1;
        if s4.error.Some? then s4
        else ParseStep(s4.plan, q, 5)
  }

  /** The clauses GetDataRow sees and the query type it is given. */
  datatype Dispatch = Dispatch(plan: Plan, queryType: string)

  /**
   * The dispatch chain: a wildcard first field, then aggregates, then fields without
   * restrictions, then the first restriction's operator; otherwise the logical operators are
   * parsed (priority 10) and more than one of them selects the NOT type.  Indexing the first
   * field of an empty field list raises.
   */
  function Classify(p: Plan, q: string): (r: Result<Dispatch>)
    ensures r.Ok? ==> r.value.queryType in {SimpleQuery, AggregateFunctionQuery, SimpleQueryWithFields,
                                             RestrictionGreaterThan, RestrictionLessThan,
                                             RestrictionLessThanOrEqualTo, RestrictionWithLogicalOperator,
                                             RestrictionWithLogicalOperatorNot}
    ensures r.Ok? ==> r.value.plan == p.(LogicalOperators := r.value.plan.LogicalOperators)
    ensures r.Throw? ==> |p.Fields| == 0 || ParseStep(p, q, 10).error.Some?
    ensures |p.Fields| > 0 && p.Fields[0] == "*" ==> r == Ok(Dispatch(p, SimpleQuery))
    ensures r.Ok? && r.value.queryType == AggregateFunctionQuery <==> |p.Fields| > 0 && p.Fields[0] != "*" && |p.AggregateFunctions| > 0
  {
    if |p.Fields| == 0 then Throw(IndexOutOfRange)
    else if p.Fields[0] == "*" then Ok(Dispatch(p, SimpleQuery))
    else if |p.AggregateFunctions| > 0 then Ok(Dispatch(p, AggregateFunctionQuery))
    else if |p.Restrictions| == 0 then Ok(Dispatch(p, SimpleQueryWithFields))
    else if p.Restrictions[0].condition == ">" then Ok(Dispatch(p, RestrictionGreaterThan))
    else if p.Restrictions[0].condition == "<" then Ok(Dispatch(p, RestrictionLessThan))
    else if p.Restrictions[0].condition == "<=" then Ok(Dispatch(p, RestrictionLessThanOrEqualTo))
    else
      var s := ParseStep(p, q, 10);
      if s.error.Some? then Throw(s.error.value)
      else if |s.plan.LogicalOperators| > 1 then Ok(Dispatch(s.plan, RestrictionWithLogicalOperatorNot))
      else Ok(Dispatch(s.plan, RestrictionWithLogicalOperator))
  }

  /**
   * What GetDataRow returns on a processor just created over the file's lines, with no
   * condition group (the parser never fills them in).
   */
  function FreshDataRow(file: seq<string>, d: Dispatch, parseDate: string -> Option<int>,
                        formatDate: int -> string, formatAverage: (int, int) -> string): Result<DataSet>
  {
    var p := d.plan;
    if d.queryType == SimpleQuery then Ok(Rows(RemainingRows(file, 0)))
    else if d.queryType == SimpleQueryWithFields && |p.OrderByFields| > 0 then
      match FilterError(file, [], parseDate)
      case Some(e) => Throw(e)
      case None =>
        var rows :- OrderByRows(FilteredAfter(file, [], [], parseDate), HeaderAfter(file, []), p.OrderByFields,
                                p.Fields, parseDate, formatDate);
        Ok(Rows(rows))
    else if d.queryType == SimpleQueryWithFields || IsLegacy(d.queryType) then Ok(Legacy(d.queryType))
    else if d.queryType == RestrictionWithLogicalOperatorNot then
      match FilterError(file, [], parseDate)
      case Some(e) => Throw(e)
      case None => ConditionsResult(FilteredAfter(file, [], [], parseDate), HeaderAfter(file, []), p.GroupByFields, p.Fields)
    else if d.queryType == AggregateFunctionQuery then AggregatesResult(file, p.GroupByFields, p.AggregateFunctions, formatAverage)
    else Ok(Rows([]))
  }

  /** ExecuteQuery on a file system: parse the file name, open it, parse the rest, dispatch. */
  function Execute(files: string -> Option<seq<string>>, q: string, parseDate: string -> Option<int>,
                   formatDate: int -> string, formatAverage: (int, int) -> string): Result<DataSet>
  {
    var s3 := ParseStep(EmptyPlan, q, 3);
    if s3.error.Some? then Throw(s3.error.value)
    else
      match files(s3.plan.File)
      case None => Throw(FileNotFound)
      case Some(lines) =>
        var s := PrepareSteps(s3.plan, q);
        if s.error.Some? then Throw(s.error.value)
        else
          var d :- Classify(s.plan, q);
          FreshDataRow(lines, d, parseDate, formatDate, formatAverage)
  }

  /** The query names a file with these lines, parses, and is dispatched as d. */
  predicate Dispatches(files: string -> Option<seq<string>>, q: string, lines: seq<string>, d: Dispatch)
  {
    var s3 := ParseStep(EmptyPlan, q, 3);
    && s3.error.None?
    && files(s3.plan.File) == Some(lines)
    && PrepareSteps(s3.plan, q).error.None?
    && Classify(PrepareSteps(s3.plan, q).plan, q) == Ok(d)
  }

  /** A dispatched query returns what GetDataRow returns on a processor fresh over the file. */
  lemma ExecuteDispatched(files: string -> Option<seq<string>>, q: string, lines: seq<string>, d: Dispatch,
                          parseDate: string -> Option<int>, formatDate: int -> string,
                          formatAverage: (int, int) -> string)
    requires Dispatches(files, q, lines, d)
    ensures Execute(files, q, parseDate, formatDate, formatAverage) == FreshDataRow(lines, d, parseDate, formatDate, formatAverage)
  {
  }

  /** The calls after the file is opened never write the order-by fields. */
  lemma PrepareStepsKeepsOrderBy(p: Plan, q: string)
    ensures PrepareSteps(p, q).plan.OrderByFields == p.OrderByFields
  {
    ParseStepFrame(p, q, 2);
    var s2 := ParseStep(p, q, 2);
    ParseStepFrame(s2.plan, q, 1);
    var s1 := ParseStep(s2.plan, q, 1);
    ParseStepFrame(s1.plan, q, 4);
    var s4 := if |s1.plan.AggregateFunctions| == 0 then ParseStep(s1.plan, q, 4) else s1;
    ParseStepFrame(s4.plan, q, 5);
  }

  /**
   * No priority ExecuteQuery uses parses an order-by clause, so a query with fields and no
   * restriction always takes the legacy branch of GetDataRow, never GetQueryWithOrderBy.
   */
  lemma ExecuteFieldsNeverOrdered(files: string -> Option<seq<string>>, q: string, lines: seq<string>, d: Dispatch,
                                  parseDate: string -> Option<int>, formatDate: int -> string,
                                  formatAverage: (int, int) -> string)
    requires Dispatches(files, q, lines, d) && d.queryType == SimpleQueryWithFields
    ensures d.plan.OrderByFields == []
    ensures Execute(files, q, parseDate, formatDate, formatAverage) == Ok(Legacy(SimpleQueryWithFields))
  {
    var s3 := ParseStep(EmptyPlan, q, 3);
    ParseStepFrame(EmptyPlan, q, 3);
    PrepareStepsKeepsOrderBy(s3.plan, q);
    ExecuteDispatched(files, q, lines, d, parseDate, formatDate, formatAverage);
  }

  /**
   * A select-all returns one row per data line of the file, the last line first, each row
   * joining back to its line.
   */
  lemma ExecuteSelectAll(files: string -> Option<seq<string>>, q: string, lines: seq<string>, d: Dispatch,
                         parseDate: string -> Option<int>, formatDate: int -> string,
                         formatAverage: (int, int) -> string)
    requires Dispatches(files, q, lines, d) && d.queryType == SimpleQuery
    ensures var r := Execute(files, q, parseDate, formatDate, formatAverage);
            && r.Ok? && r.value.Rows?
            && |r.value.rows| == (if |lines| == 0 then 0 else |lines| - 1)
            && forall i :: 0 <= i < |r.value.rows| ==>
                 r.value.rows[i] == Split(lines[|lines| - 1 - i], ',') && Join(r.value.rows[i], ",") == lines[|lines| - 1 - i]
  {
    ExecuteDispatched(files, q, lines, d, parseDate, formatDate, formatAverage);
    SelectAllRows(lines);
  }

  /**
   * The parser never fills in condition groups, so a query of the NOT type keeps every data
   * line: its result is computed over the whole file after the header.
   */
  lemma ExecuteNotKeepsEveryLine(files: string -> Option<seq<string>>, q: string, lines: seq<string>, d: Dispatch,
                                 parseDate: string -> Option<int>, formatDate: int -> string,
                                 formatAverage: (int, int) -> string)
    requires Dispatches(files, q, lines, d) && d.queryType == RestrictionWithLogicalOperatorNot
    requires |lines| > 0
    ensures Execute(files, q, parseDate, formatDate, formatAverage)
            == ConditionsResult(lines[1..], Split(lines[0], ','), d.plan.GroupByFields, d.plan.Fields)
  {
    ExecuteDispatched(files, q, lines, d, parseDate, formatDate, formatAverage);
    FilterLinesNoGroups(lines[1..], [], Split(lines[0], ','), parseDate);
    assert FilteredAfter(lines, [], [], parseDate) == lines[1..];
  }

  class Query {
    /** The file system: a file name's lines, if there is such a file. */
    const files: string -> Option<seq<string>>
    const parseDate: string -> Option<int>
    const formatDate: int -> string
    const formatAverage: (int, int) -> string

    var queryParser: QueryParser?
    var queryParameter: QueryParameter?
    var queryProcessor: CsvQueryProcessor?

    constructor(files: string -> Option<seq<string>>, parseDate: string -> Option<int>,
                formatDate: int -> string, formatAverage: (int, int) -> string)
      ensures this.files == files && this.parseDate == parseDate
      ensures this.formatDate == formatDate && this.formatAverage == formatAverage
      ensures queryParser == null && queryParameter == null && queryProcessor == null
    {
      this.files := files;
      this.parseDate := parseDate;
      this.formatDate := formatDate;
      this.formatAverage := formatAverage;
      queryParser := null;
      queryParameter := null;
      queryProcessor := null;
    }

    /** Stores the query type and asks the processor for the data. */
    method RunQueryType(queryType: string) returns (r: Result<DataSet>)
      requires queryParameter != null && queryProcessor != null && queryProcessor.Valid()
      requires queryProcessor.header == [] && queryProcessor.filteredContent == [] && queryProcessor.consumed == 0
      requires queryParameter.ConditionGroups == []
      modifies queryParameter, queryProcessor
      ensures queryParameter.Snapshot() == old(queryParameter.Snapshot())
      ensures r == FreshDataRow(queryProcessor.file, Dispatch(queryParameter.Snapshot(), queryType),
                                queryProcessor.parseDate, queryProcessor.formatDate, queryProcessor.formatAverage)
    {
      queryParameter.QueryType := queryType;
      r := queryProcessor.GetDataRow(queryParameter);
    }

    /** The parse calls after the file is opened: 2, 1, 4 only when there is no aggregate, then 5. */
    method ParseClauses(queryString: string) returns (error: Option<Exception>)
      requires queryParser != null && queryParameter == queryParser.queryParameter
      modifies queryParameter
      ensures var s := PrepareSteps(old(queryParameter.Snapshot()), queryString);
              queryParameter.Snapshot() == s.plan && error == s.error
      ensures queryParameter.ConditionGroups == old(queryParameter.ConditionGroups)
    {
      ghost var p := queryParameter.Snapshot();
      // Priorities 2 and 5 never raise.
      var parsed := queryParser.ParseQuery(queryString, 2);
      ghost var s2 := ParseStep(p, queryString, 2);
      assert s2.error.None? && queryParameter.Snapshot() == s2.plan;
      parsed := queryParser.ParseQuery(queryString, 1);
      ghost var s1 := ParseStep(s2.plan, queryString, 1);
      assert queryParameter.Snapshot() == s1.plan;
      if parsed.Throw? {
        assert s1.error == Some(parsed.error);
        return Some(parsed.error);
      }
      ghost var s4 := s1;
      if |queryParameter.AggregateFunctions| == 0 {
        parsed := queryParser.ParseQuery(queryString, 4);
        s4 := ParseStep(s1.plan, queryString, 4);
        if parsed.Throw? {
          return Some(parsed.error);
        }
      }
      assert s4.error.None? && queryParameter.Snapshot() == s4.plan;
      parsed := queryParser.ParseQuery(queryString, 5);
      assert queryParameter.Snapshot() == ParseStep(s4.plan, queryString, 5).plan;
      return None;
    }

    /** The dispatch chain: the query type from the parsed clauses, then GetDataRow. */
    method DispatchQuery(queryString: string) returns (r: Result<DataSet>)
      requires queryParser != null && queryParameter == queryParser.queryParameter
      requires queryProcessor != null && queryProcessor.Valid()
      requires queryProcessor.header == [] && queryProcessor.filteredContent == [] && queryProcessor.consumed == 0
      requires queryParameter.ConditionGroups == []
      modifies queryParameter, queryProcessor
      ensures r == (var d :- Classify(old(queryParameter.Snapshot()), queryString);
                    FreshDataRow(queryProcessor.file, d, queryProcessor.parseDate, queryProcessor.formatDate,
                                 queryProcessor.formatAverage))
    {
      if |queryParameter.Fields| == 0 {
        return Throw(IndexOutOfRange);
      }
      var restrictions := queryParameter.Restrictions;
      if queryParameter.Fields[0] == "*" {
        r := RunQueryType(SimpleQuery);
      } else if |queryParameter.AggregateFunctions| > 0 {
        r := RunQueryType(AggregateFunctionQuery);
      } else if |restrictions| == 0 {
        r := RunQueryType(SimpleQueryWithFields);
      } else if restrictions[0].condition == ">" {
        r := RunQueryType(RestrictionGreaterThan);
      } else if restrictions[0].condition == "<" {
        r := RunQueryType(RestrictionLessThan);
      } else if restrictions[0].condition == "<=" {
        r := RunQueryType(RestrictionLessThanOrEqualTo);
      } else {
        var parsed := queryParser.ParseQuery(queryString, 10);
        if parsed.Throw? {
          return Throw(parsed.error);
        }
        if |queryParameter.LogicalOperators| > 1 {
          r := RunQueryType(RestrictionWithLogicalOperatorNot);
        } else {
          r := RunQueryType(RestrictionWithLogicalOperator);
        }
      }
    }

    /**
     * ExecuteQuery: a new parser reads the file name (priority 3), the file is opened, the
     * remaining clauses are parsed, and the dispatch chain hands the query to GetDataRow.
     */
    method ExecuteQuery(queryString: string) returns (r: Result<DataSet>)
      modifies this
      ensures r == Execute(files, queryString, parseDate, formatDate, formatAverage)
    {
      queryParser := new QueryParser();
      var parsed := queryParser.ParseQuery(queryString, 3);
      if parsed.Throw? {
        return Throw(parsed.error);
      }
      queryParameter := parsed.value;
      var lines := files(queryParameter.File);
      if lines.None? {
        return Throw(FileNotFound);
      }
      queryProcessor := new CsvQueryProcessor(lines.value, parseDate, formatDate, formatAverage);
      var error := ParseClauses(queryString);
      if error.Some? {
        return Throw(error.value);
      }
      r := DispatchQuery(queryString);
    }
  }
}
