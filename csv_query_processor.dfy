/**
 * The query processor over one CSV file.  The file's lines are fixed when it is created; it
 * keeps the header it read last, the lines its filter has kept so far (never cleared), and how
 * many lines its reader has consumed.  Each method is proved to return what the matching
 * function of QueryResults, Aggregation or SimpleAggregation computes, and to leave the state
 * those functions describe.
 */
module CsvQueryProcessors {
  import opened Wrappers
  import opened Text
  import opened Int32
  import opened Restrictions
  import opened AggregateFunctions
  import opened QueryParameters
  import opened Sorting
  import opened Grouping
  import opened Projection
  import opened Filtering
  import opened Ipl
  import opened DataSets
  import opened Aggregation
  import opened SimpleAggregation
  import opened QueryResults

  /** The header after `_header = GetHeader()`: unchanged when the file is empty, since GetHeader raises. */
  function HeaderAfter(file: seq<string>, before: seq<string>): seq<string>
  {
    if |file| == 0 then before else Split(file[0], ',')
  }

  /** The kept lines after reading the header and filtering the data lines on the groups. */
  function FilteredAfter(file: seq<string>, before: seq<string>, groups: seq<ConditionGroup>,
                         parseDate: string -> Option<int>): seq<string>
  {
    if |file| == 0 then before else before + FilterLines(file[1..], groups, Split(file[0], ','), parseDate).kept
  }

  /** The exception raised while reading the header or filtering, if any. */
  function FilterError(file: seq<string>, groups: seq<ConditionGroup>, parseDate: string -> Option<int>): Option<Exception>
  {
    if |file| == 0 then Some(NullReference) else FilterLines(file[1..], groups, Split(file[0], ','), parseDate).error
  }

  /** The GetDataRow branches whose hard-coded column handling is not modelled. */
  predicate IsLegacy(queryType: string)
  {
    queryType in {RestrictionGreaterThan, RestrictionLessThan, RestrictionLessThanOrEqualTo, RestrictionWithLogicalOperator}
  }

  class CsvQueryProcessor {
    /** The lines of the file, header first. */
    const file: seq<string>
    /** DateTime.TryParse / Convert.ToDateTime: the ticks of a date text, if it is one. */
    const parseDate: string -> Option<int>
    /** DateTime.ToShortDateString. */
    const formatDate: int -> string
    /** Math.Round(sum / count, 2) written as text. */
    const formatAverage: (int, int) -> string

    /** _header.Headers: empty until a header is read. */
    var header: seq<string>
    /** The lines every FilterResult call has kept, in order. */
    var filteredContent: seq<string>
    /** The number of lines the reader opened by the constructor has consumed. */
    var consumed: nat

    ghost predicate Valid()
      reads this
    {
      consumed <= |file|
    }

    /** The processor over a file whose lines could be opened. */
    constructor(file: seq<string>, parseDate: string -> Option<int>, formatDate: int -> string,
                formatAverage: (int, int) -> string)
      ensures Valid()
      ensures this.file == file && this.parseDate == parseDate
      ensures this.formatDate == formatDate && this.formatAverage == formatAverage
      ensures header == [] && filteredContent == [] && consumed == 0
    {
      this.file := file;
      this.parseDate := parseDate;
      this.formatDate := formatDate;
      this.formatAverage := formatAverage;
      header := [];
      filteredContent := [];
      consumed := 0;
    }

    /** `_header = GetHeader()`: the first line split on ','; an empty file raises NullReference. */
    method ReadHeader() returns (error: Option<Exception>)
      modifies this
      ensures error.Some? <==> |file| == 0
      ensures error.Some? ==> error.value == NullReference
      ensures HeaderOf(file).Ok? ==> HeaderOf(file) == Ok(header)
      ensures header == HeaderAfter(file, old(header))
      ensures filteredContent == old(filteredContent) && consumed == old(consumed)
    {
      if |file| == 0 {
        return Some(NullReference);
      }
      header := Split(file[0], ',');
      return None;
    }

    // ---------------------------------------------------------------- FilterResult

    /** The inner loop of FilterResult: one non-empty group's restrictions ANDed, stopping at false. */
    method GroupResult(rs: seq<Restriction>, row: seq<string>) returns (r: Result<bool>)
      requires |rs| > 0
      ensures r == GroupVerdict(rs, row, header, parseDate)
    {
      var result: Option<bool> := None;
      for i := 0 to |rs|
        invariant result.None? <==> i == 0
        invariant GroupVerdict(rs[..i], row, header, parseDate) == Ok(result.GetOr(true))
      {
        assert rs[..i + 1][..i] == rs[..i];
        if result.GetOr(true) {
          var v := FilterContent(rs[i], row, header, parseDate);
          if v.Throw? {
            GroupVerdictStops(rs, i + 1, row, header, parseDate, v.error);
            return Throw(v.error);
          }
          result := Some(v.value);
        } else {
          result := Some(false);
        }
      }
      assert rs[..|rs|] == rs;
      return Ok(result.value);
    }

    /** The middle loop of FilterResult: the non-empty groups folded into the row's verdict. */
    method RowResult(groups: seq<ConditionGroup>, row: seq<string>) returns (r: Result<Option<bool>>)
      ensures r == RowVerdict(groups, row, header, parseDate)
    {
      var conditionGroupResult: Option<bool> := None;
      for i := 0 to |groups|
        invariant RowVerdict(groups[..i], row, header, parseDate) == Ok(conditionGroupResult)
      {
        assert groups[..i + 1][..i] == groups[..i];
        var condition := groups[i];
        if |condition.ConditionsGroup| != 0 {
          var result := GroupResult(condition.ConditionsGroup, row);
          if result.Throw? {
            RowVerdictStops(groups, i + 1, row, header, parseDate, result.error);
            return Throw(result.error);
          }
          if condition.Operator == "or" {
            conditionGroupResult := Some(conditionGroupResult.GetOr(false) || result.value);
          } else {
            conditionGroupResult := Some(conditionGroupResult.GetOr(true) && result.value);
          }
        }
      }
      assert groups[..|groups|] == groups;
      return Ok(conditionGroupResult);
    }

    /**
     * FilterResult: every data line whose verdict is not false is appended to the kept lines, in
     * file order, until a line raises.  Removing the header line of an empty file raises.
     */
    method FilterResult(conditionGroups: seq<ConditionGroup>) returns (error: Option<Exception>)
      modifies this
      ensures header == old(header) && consumed == old(consumed)
      ensures |file| == 0 ==> error == Some(IndexOutOfRange) && filteredContent == old(filteredContent)
      ensures |file| > 0 ==>
                var run := FilterLines(file[1..], conditionGroups, header, parseDate);
                filteredContent == old(filteredContent) + run.kept && error == run.error
    {
      if |file| == 0 {
        return Some(IndexOutOfRange);
      }
      var contents := file[1..];
      for i := 0 to |contents|
        invariant header == old(header) && consumed == old(consumed)
        invariant FilterLines(contents[..i], conditionGroups, header, parseDate).error.None?
        invariant filteredContent == old(filteredContent) + FilterLines(contents[..i], conditionGroups, header, parseDate).kept
      {
        assert contents[..i + 1][..i] == contents[..i];
        var row := Split(contents[i], ',');
        var v := RowResult(conditionGroups, row);
        if v.Throw? {
          FilterLinesStops(contents, i + 1, conditionGroups, header, parseDate);
          return Some(v.error);
        }
        if v.value != Some(false) {
          filteredContent := filteredContent + [contents[i]];
        }
      }
      assert contents[..|contents|] == contents;
      return None;
    }

    // ---------------------------------------------------------------- GetSelectedValues

    /**
     * GetSelectedValues: the header index of every requested field, then the row's value at each
     * index that is not -1; the whole row when there is none.
     */
    method GetSelectedValues(value: seq<string>, fields: seq<string>) returns (r: Result<seq<string>>)
      ensures r == SelectedValues(value, header, fields)
    {
      var indexes: seq<int> := [];
      for i := 0 to |fields|
        invariant indexes == Indexes(header, fields[..i])
      {
        assert fields[..i + 1][..i] == fields[..i];
        indexes := indexes + [GetIndexOfField(header, fields[i])];
      }
      assert fields[..|fields|] == fields;
      var values: seq<string> := [];
      var known := 0;
      for j := 0 to |indexes|
        invariant Pick(value, KnownIndexes(indexes[..j])) == Ok(values)
        invariant known == |KnownIndexes(indexes[..j])|
      {
        var item := indexes[j];
        KnownIndexesNext(indexes, j);
        if item != -1 {
          if !(0 <= item < |value|) {
            KnownIndexOutside(value, indexes, j);
            return Throw(IndexOutOfRange);
          }
          PickNext(value, KnownIndexes(indexes[..j]), values, item);
          values := values + [value[item]];
          known := known + 1;
        }
      }
      assert indexes[..|indexes|] == indexes;
      if known == 0 {
        r := Ok(value);
      } else {
        r := Ok(values);
      }
    }
  
    // ---------------------------------------------------------------- ungrouped aggregates

    /**
     * FindMinWithoutWhere with its seed read as "no value yet" only before the first line: the
     * least value of the column, Int32.MinValue when there is no data line.
     */
    method FindMinWithoutWhere(a: AggregateFunction, fileContents: seq<string>) returns (r: Result<(string, Value)>)
      ensures var m := ColumnMin(fileContents, GetIndexOfField(header, a.field));
              r == if m.Ok? then Ok((Label(a), Text(ToString(m.value)))) else Throw(m.error)
    {
      var index := GetIndexOfField(header, a.field);
      var minValue := MinValue;
      ghost var vs: seq<int> := [];
      for i := 0 to |fileContents|
        invariant ColumnInts(fileContents[..i], index) == Ok(vs)
        invariant minValue == if i == 0 then MinValue else SeqMin(vs)
      {
        var value := ColumnInt(fileContents[i], index);
        if value.Throw? {
          ColumnIntsLineStops(fileContents, i, index, value.error);
          return Throw(value.error);
        }
        minValue := if i == 0 then value.value else if minValue < value.value then minValue else value.value;
        ColumnIntsNext(fileContents, i, index, vs, value.value);
        vs := vs + [value.value];
      }
      assert fileContents[..|fileContents|] == fileContents;
      return Ok((Label(a), Text(ToString(minValue))));
    }

    /**
     * FindMaxWithoutWhere with its seed read as "no value yet" only before the first line: the
     * greatest value of the column, Int32.MinValue when there is no data line.
     */
    method FindMaxWithoutWhere(a: AggregateFunction, fileContents: seq<string>) returns (r: Result<(string, Value)>)
      ensures var m := ColumnMax(fileContents, GetIndexOfField(header, a.field));
              r == if m.Ok? then Ok((Label(a), Text(ToString(m.value)))) else Throw(m.error)
    {
      var index := GetIndexOfField(header, a.field);
      var maxValue := MinValue;
      ghost var vs: seq<int> := [];
      for i := 0 to |fileContents|
        invariant ColumnInts(fileContents[..i], index) == Ok(vs)
        invariant maxValue == if i == 0 then MinValue else SeqMax(vs)
      {
        var value := ColumnInt(fileContents[i], index);
        if value.Throw? {
          ColumnIntsLineStops(fileContents, i, index, value.error);
          return Throw(value.error);
        }
        maxValue := if i == 0 then value.value else if maxValue > value.value then maxValue else value.value;
        ColumnIntsNext(fileContents, i, index, vs, value.value);
        vs := vs + [value.value];
      }
      assert fileContents[..|fileContents|] == fileContents;
      return Ok((Label(a), Text(ToString(maxValue))));
    }

    /** The switch of ParseSimpleAggregateFunctions: one aggregate's labelled entry, none for another function name. */
    method AggregateWithoutWhere(a: AggregateFunction, fileContents: seq<string>) returns (r: Result<Option<(string, Value)>>)
      ensures r == AggregateEntry(a, header, fileContents, formatAverage)
    {
      var index := GetIndexOfField(header, a.field);
      match a.functionName
      case "count" =>
        r := Ok(Some((Label(a), Text(ToString(|fileContents|)))));
      case "sum" =>
        var sum := ColumnSum(fileContents, index);
        r := if sum.Ok? then Ok(Some((Label(a), Text(ToString(sum.value))))) else Throw(sum.error);
      case "min" =>
        var result := FindMinWithoutWhere(a, fileContents);
        r := if result.Ok? then Ok(Some(result.value)) else Throw(result.error);
      case "max" =>
        var result := FindMaxWithoutWhere(a, fileContents);
        r := if result.Ok? then Ok(Some(result.value)) else Throw(result.error);
      case "avg" =>
        var sum := ColumnSum(fileContents, index);
        var count := |fileContents|;
        r := if sum.Ok? then Ok(Some((Label(a), Text(formatAverage(sum.value, count))))) else Throw(sum.error);
      case _ =>
        r := Ok(None);
    }

    /**
     * ParseSimpleAggregateFunctions: the header is read, then each aggregate's entry is added to
     * the grouped data set in select-list order.
     */
    method ParseSimpleAggregateFunctions(aggregates: seq<AggregateFunction>) returns (r: Result<DataSet>)
      modifies this
      ensures r == SimpleAggregatesOf(file, aggregates, formatAverage)
      ensures header == HeaderAfter(file, old(header))
      ensures filteredContent == old(filteredContent) && consumed == old(consumed)
    {
      var error := ReadHeader();
      if error.Some? {
        return Throw(error.value);
      }
      var fileContents := file[1..];
      var entries: seq<(string, Value)> := [];
      for i := 0 to |aggregates|
        invariant header == Split(file[0], ',')
        invariant filteredContent == old(filteredContent) && consumed == old(consumed)
        invariant SimpleAggregates(aggregates[..i], header, fileContents, formatAverage) == Ok(entries)
      {
        assert aggregates[..i + 1][..i] == aggregates[..i];
        var result := AggregateWithoutWhere(aggregates[i], fileContents);
        if result.Throw? {
          SimpleAggregatesStops(aggregates, header, fileContents, formatAverage, i + 1, result.error);
          return Throw(result.error);
        }
        if result.value.Some? {
          var entry := result.value.value;
          var added := AddEntry(entries, entry.0, entry.1);
          if added.Throw? {
            SimpleAggregatesStops(aggregates, header, fileContents, formatAverage, i + 1, added.error);
            return Throw(added.error);
          }
          entries := added.value;
        }
      }
      assert aggregates[..|aggregates|] == aggregates;
      return Ok(Grouped(entries));
    }

    // ---------------------------------------------------------------- grouped aggregates

    /**
     * The inner loop shared by ParseGroupByAggregateFunctions and GetQueryWithConditions: each
     * line's value in column si is added under its value in column gi; a line without one of the
     * columns raises, leaving the lines before it added.
     */
    method AddLines(dictionary: GroupTable, lines: seq<string>, gi: int, si: int) returns (ok: bool)
      requires dictionary.Valid()
      modifies dictionary
      ensures dictionary.Valid()
      ensures ok <==> LinePairs(lines, gi, si).Ok?
      ensures ok ==> dictionary.State() == AddAll(old(dictionary.State()), LinePairs(lines, gi, si).value)
    {
      ghost var t0 := dictionary.State();
      ghost var pairs: seq<(string, int)> := [];
      for j := 0 to |lines|
        invariant dictionary.Valid()
        invariant LinePairs(lines[..j], gi, si) == Ok(pairs)
        invariant dictionary.State() == AddAll(t0, pairs)
      {
        var contents := Split(lines[j], ',');
        if !(0 <= gi < |contents|) || !(0 <= si < |contents|) {
          LinePairsLineStops(lines, j, gi, si);
          return false;
        }
        var fieldValue := contents[gi];
        dictionary.AddValue(fieldValue, contents[si]);
        LinePairsNext(lines, j, gi, si, pairs);
        AddAllSnoc(t0, pairs, (fieldValue, TryParse(contents[si])));
        pairs := pairs + [(fieldValue, TryParse(contents[si]))];
      }
      assert lines[..|lines|] == lines;
      return true;
    }

    /** The last loop of one group field: each key's [key, statistic] added to the data set in key order. */
    method AddGroupedKeys(dictionary: GroupTable, grouped: seq<(string, Value)>, aggregates: seq<AggregateFunction>)
      returns (r: Result<seq<(string, Value)>>)
      requires dictionary.Valid()
      ensures r == AddGroupedValues(grouped, dictionary.State(), dictionary.keys, aggregates, formatAverage)
    {
      var keys := dictionary.keys;
      var g := grouped;
      for k := 0 to |keys|
        invariant AddGroupedValues(grouped, dictionary.State(), keys[..k], aggregates, formatAverage) == Ok(g)
      {
        var key := keys[k];
        AddGroupedValuesNext(grouped, dictionary.State(), keys, k, aggregates, formatAverage, g);
        var values := GetGroupedValue(key, dictionary.entries[key], aggregates, formatAverage);
        if values.Throw? {
          AddGroupedValuesStops(grouped, dictionary.State(), keys, k + 1, aggregates, formatAverage, values.error);
          return Throw(values.error);
        }
        var added := AddEntry(g, key, Texts(values.value));
        if added.Throw? {
          AddGroupedValuesStops(grouped, dictionary.State(), keys, k + 1, aggregates, formatAverage, added.error);
          return Throw(added.error);
        }
        g := added.value;
      }
      assert keys[..|keys|] == keys;
      return Ok(g);
    }

    /**
     * One pass of the group-field loop: every line added to the dictionary under its value of
     * the group field, the dictionary reordered by key, and each key's [key, statistic] added.
     */
    method GroupFieldPass(dictionary: GroupTable, grouped: seq<(string, Value)>, fileContents: seq<string>,
                          groupField: string, aggregates: seq<AggregateFunction>) returns (r: Result<seq<(string, Value)>>)
      requires dictionary.Valid()
      modifies dictionary
      ensures dictionary.Valid()
      ensures GroupFieldStep(GroupByState(old(dictionary.State()), grouped), groupField, header,
                             fileContents, aggregates, formatAverage)
              == if r.Ok? then Ok(GroupByState(dictionary.State(), r.value)) else Throw(r.error)
    {
      var groupFieldIndex := GetIndexOfField(header, groupField);
      if |aggregates| == 0 {
        return Throw(IndexOutOfRange);
      }
      var selectField := aggregates[0].field;
      var selectFieldIndex := if selectField == "*" then 0 else GetIndexOfField(header, selectField);
      var ok := AddLines(dictionary, fileContents, groupFieldIndex, selectFieldIndex);
      if !ok {
        return Throw(IndexOutOfRange);
      }
      dictionary.OrderByKey();
      r := AddGroupedKeys(dictionary, grouped, aggregates);
    }

    /** The n-th pass of the group-field loop: the run goes on with it, or ends with its exception. */
    method GroupField(dictionary: GroupTable, grouped: seq<(string, Value)>, fileContents: seq<string>,
                      groupByFields: seq<string>, n: nat, aggregates: seq<AggregateFunction>)
      returns (r: Result<seq<(string, Value)>>)
      requires dictionary.Valid() && n < |groupByFields|
      requires GroupByRun(header, fileContents, groupByFields, n, aggregates, formatAverage)
               == Ok(GroupByState(dictionary.State(), grouped))
      modifies dictionary
      ensures dictionary.Valid()
      ensures r.Ok? ==> GroupByRun(header, fileContents, groupByFields, n + 1, aggregates, formatAverage)
                        == Ok(GroupByState(dictionary.State(), r.value))
      ensures r.Throw? ==> GroupByRun(header, fileContents, groupByFields, |groupByFields|, aggregates, formatAverage)
                           == Throw(r.error)
    {
      ghost var before := dictionary.State();
      r := GroupFieldPass(dictionary, grouped, fileContents, groupByFields[n], aggregates);
      GroupByRunNext(header, fileContents, groupByFields, n, aggregates, formatAverage, GroupByState(before, grouped),
                     if r.Ok? then Ok(GroupByState(dictionary.State(), r.value)) else Throw(r.error));
    }

    /** The group-field loop, over one dictionary and one grouped data set shared by all fields. */
    method GroupByFields(fileContents: seq<string>, groupByFields: seq<string>, aggregates: seq<AggregateFunction>)
      returns (r: Result<DataSet>)
      ensures r == (var s :- GroupByRun(header, fileContents, groupByFields, |groupByFields|, aggregates, formatAverage);
                    Ok(Grouped(s.grouped)))
    {
      var dictionary := new GroupTable();
      var grouped: seq<(string, Value)> := [];
      for n := 0 to |groupByFields|
        invariant dictionary.Valid()
        invariant GroupByRun(header, fileContents, groupByFields, n, aggregates, formatAverage)
                  == Ok(GroupByState(dictionary.State(), grouped))
      {
        var step := GroupField(dictionary, grouped, fileContents, groupByFields, n, aggregates);
        if step.Throw? {
          return Throw(step.error);
        }
        grouped := step.value;
      }
      return Ok(Grouped(grouped));
    }

    /**
     * ParseGroupByAggregateFunctions: for each group field in turn, every data line is added to
     * the one dictionary kept across the fields, the dictionary is reordered by key, and each
     * key's [key, statistic] is added to the grouped data set.
     */
    method ParseGroupByAggregateFunctions(groupByFields: seq<string>, aggregates: seq<AggregateFunction>)
      returns (r: Result<DataSet>)
      modifies this
      ensures r == GroupByAggregates(file, groupByFields, aggregates, formatAverage)
      ensures header == HeaderAfter(file, old(header))
      ensures filteredContent == old(filteredContent) && consumed == old(consumed)
    {
      var error := ReadHeader();
      if error.Some? {
        return Throw(error.value);
      }
      r := GroupByFields(file[1..], groupByFields, aggregates);
    }

    /** ParseAggregateFunctions: ungrouped without a group-by field, grouped otherwise. */
    method ParseAggregateFunctions(groupByFields: seq<string>, aggregates: seq<AggregateFunction>)
      returns (r: Result<DataSet>)
      modifies this
      ensures r == AggregatesResult(file, groupByFields, aggregates, formatAverage)
      ensures header == HeaderAfter(file, old(header))
      ensures filteredContent == old(filteredContent) && consumed == old(consumed)
    {
      if |groupByFields| == 0 {
        r := ParseSimpleAggregateFunctions(aggregates);
      } else {
        r := ParseGroupByAggregateFunctions(groupByFields, aggregates);
      }
    }
  
    // ---------------------------------------------------------------- GetQueryWithConditions

    /** Each dictionary entry added to the grouped data set; its keys are distinct, so no Add raises. */
    method CopyTotals(dictionary: GroupTable) returns (es: seq<(string, Value)>)
      requires dictionary.Valid()
      ensures es == TotalsEntries(dictionary.State())
    {
      var keys := dictionary.keys;
      es := [];
      for k := 0 to |keys|
        invariant es == TotalsEntries(Table(dictionary.entries, keys[..k]))
      {
        var key := keys[k];
        assert key !in Keys(es) by {
          forall i | 0 <= i < k
            ensures Keys(es)[i] != key
          {
            assert Keys(es)[i] == keys[i];
          }
        }
        var added := AddEntry(es, key, Totals(dictionary.entries[key]));
        es := added.value;
        assert es == TotalsEntries(Table(dictionary.entries, keys[..k + 1]));
      }
      assert keys[..|keys|] == keys;
    }

    /** The ungrouped branch: GetSelectedValues of every kept line, in order. */
    method SelectRows(fields: seq<string>) returns (r: Result<seq<seq<string>>>)
      ensures r == SelectedRows(filteredContent, header, fields)
    {
      var rows: seq<seq<string>> := [];
      for i := 0 to |filteredContent|
        invariant SelectedRows(filteredContent[..i], header, fields) == Ok(rows)
      {
        var row := GetSelectedValues(Split(filteredContent[i], ','), fields);
        if row.Throw? {
          ReadAllLineStops(filteredContent, i, SelectedRowReader(header, fields), row.error);
          return Throw(row.error);
        }
        ReadAllNext(filteredContent, i, SelectedRowReader(header, fields), rows, row.value);
        rows := rows + [row.value];
      }
      assert filteredContent[..|filteredContent|] == filteredContent;
      return Ok(rows);
    }

    /**
     * GetQueryWithConditions: the header is read and the file filtered (either may raise);
     * then, with a group-by field, the totals of the first selected field per value of the
     * first group field, otherwise the selected values of every line kept so far.
     */
    method GetQueryWithConditions(groupByFields: seq<string>, fields: seq<string>, conditionGroups: seq<ConditionGroup>)
      returns (r: Result<DataSet>)
      modifies this
      ensures header == HeaderAfter(file, old(header)) && consumed == old(consumed)
      ensures filteredContent == FilteredAfter(file, old(filteredContent), conditionGroups, parseDate)
      ensures r == match FilterError(file, conditionGroups, parseDate)
                   case Some(e) => Throw(e)
                   case None => ConditionsResult(filteredContent, header, groupByFields, fields)
    {
      var error := ReadHeader();
      if error.Some? {
        return Throw(error.value);
      }
      error := FilterResult(conditionGroups);
      if error.Some? {
        return Throw(error.value);
      }
      if |groupByFields| > 0 {
        var groupFieldIndex := GetIndexOfField(header, groupByFields[0]);
        if |fields| == 0 {
          return Throw(IndexOutOfRange);
        }
        var selectFieldIndex := GetIndexOfField(header, fields[0]);
        var dictionary := new GroupTable();
        var ok := AddLines(dictionary, filteredContent, groupFieldIndex, selectFieldIndex);
        if !ok {
          GroupedTotalsMissingColumn(filteredContent, groupFieldIndex, selectFieldIndex);
          return Throw(IndexOutOfRange);
        }
        var entries := CopyTotals(dictionary);
        return Ok(Grouped(entries));
      } else {
        var rows := SelectRows(fields);
        if rows.Throw? {
          return Throw(rows.error);
        }
        return Ok(Rows(rows.value));
      }
    }
  
    // ---------------------------------------------------------------- GetQueryWithOrderBy

    /** ParseData: each line read as a record, in order; the first line that does not read raises. */
    method ParseData(data: seq<string>) returns (r: Result<seq<seq<Cell>>>)
      ensures r == ParseRecords(data, parseDate)
    {
      var inputData: seq<seq<Cell>> := [];
      for i := 0 to |data|
        invariant ParseRecords(data[..i], parseDate) == Ok(inputData)
      {
        var record := ParseRecord(data[i], parseDate);
        if record.Throw? {
          ReadAllLineStops(data, i, RecordReader(parseDate), record.error);
          return Throw(record.error);
        }
        ReadAllNext(data, i, RecordReader(parseDate), inputData, record.value);
        inputData := inputData + [record.value];
      }
      assert data[..|data|] == data;
      return Ok(inputData);
    }

    /** The order-by loop: sortData for each field, the first one starting the order. */
    method SortOrderByFields(orderBy: seq<string>) returns (r: Result<Ordering>)
      ensures r == SortChain(orderBy, |orderBy|)
    {
      var content := Unordered;
      for i := 0 to |orderBy|
        invariant SortChain(orderBy, i) == Ok(content)
      {
        var sorted := SortData(content, orderBy[i], i == 0);
        if sorted.Throw? {
          SortChainStops(orderBy, i + 1, |orderBy|, sorted.error);
          return Throw(sorted.error);
        }
        content := sorted.value;
      }
      return Ok(content);
    }

    /** ConvertObjecttoString: each record written back as a comma-separated line, in order. */
    method ConvertObjecttoString(inputData: seq<seq<Cell>>) returns (result: seq<string>)
      ensures result == RecordTexts(inputData, formatDate)
    {
      result := [];
      for i := 0 to |inputData|
        invariant result == RecordTexts(inputData[..i], formatDate)
      {
        result := result + [RecordText(inputData[i], formatDate)];
      }
      assert inputData[..|inputData|] == inputData;
    }

    /** The inner projection loop: row[GetIndexOfField(field)] for each requested field. */
    method ProjectRow(row: seq<string>, fields: seq<string>) returns (r: Result<seq<string>>)
      ensures r == Project(row, header, fields)
    {
      var temp: seq<string> := [];
      for j := 0 to |fields|
        invariant Project(row, header, fields[..j]) == Ok(temp)
      {
        assert fields[..j + 1][..j] == fields[..j];
        var index := GetIndexOfField(header, fields[j]);
        if !(0 <= index < |row|) {
          ProjectStops(row, header, fields, j + 1);
          return Throw(IndexOutOfRange);
        }
        temp := temp + [row[index]];
      }
      assert fields[..|fields|] == fields;
      return Ok(temp);
    }

    /** The outer projection loop: each written-back line split on ',' and projected. */
    method ProjectLines(result: seq<string>, fields: seq<string>) returns (r: Result<seq<seq<string>>>)
      ensures r == ProjectRows(result, header, fields)
    {
      var rows: seq<seq<string>> := [];
      for i := 0 to |result|
        invariant ProjectRows(result[..i], header, fields) == Ok(rows)
      {
        var temp := ProjectRow(Split(result[i], ','), fields);
        if temp.Throw? {
          ReadAllLineStops(result, i, ProjectReader(header, fields), temp.error);
          return Throw(temp.error);
        }
        ReadAllNext(result, i, ProjectReader(header, fields), rows, temp.value);
        rows := rows + [temp.value];
      }
      assert result[..|result|] == result;
      return Ok(rows);
    }

    /**
     * GetQueryWithOrderBy: the header is read and the file filtered (either may raise); the
     * lines kept so far are read as records, ordered by the order-by fields, written back and
     * projected onto the requested fields.
     */
    method GetQueryWithOrderBy(orderBy: seq<string>, fields: seq<string>, conditionGroups: seq<ConditionGroup>)
      returns (r: Result<DataSet>)
      modifies this
      ensures header == HeaderAfter(file, old(header)) && consumed == old(consumed)
      ensures filteredContent == FilteredAfter(file, old(filteredContent), conditionGroups, parseDate)
      ensures FilterError(file, conditionGroups, parseDate).Some? ==> r == Throw(FilterError(file, conditionGroups, parseDate).value)
      ensures FilterError(file, conditionGroups, parseDate).None? ==>
                r == (var rows :- OrderByRows(filteredContent, header, orderBy, fields, parseDate, formatDate);
                      Ok(Rows(rows)))
    {
      var error := ReadHeader();
      if error.Some? {
        return Throw(error.value);
      }
      error := FilterResult(conditionGroups);
      if error.Some? {
        return Throw(error.value);
      }
      var content := ParseData(filteredContent);
      if content.Throw? {
        return Throw(content.error);
      }
      var ordering := SortOrderByFields(orderBy);
      if ordering.Throw? {
        return Throw(ordering.error);
      }
      var result := ConvertObjecttoString(Arrange(ordering.value, content.value));
      var rows := ProjectLines(result, fields);
      if rows.Throw? {
        return Throw(rows.error);
      }
      return Ok(Rows(rows.value));
    }
  
    // ---------------------------------------------------------------- GetDataRow

    /**
     * The select-all branch: the reader skips one line (the header, when nothing was consumed
     * yet), reads each remaining line split on ',', and the rows are reversed.
     */
    method ReadRemaining() returns (rows: seq<seq<string>>)
      requires Valid()
      modifies this
      ensures Valid() && consumed == |file|
      ensures rows == RemainingRows(file, old(consumed))
      ensures header == old(header) && filteredContent == old(filteredContent)
    {
      if consumed < |file| {
        consumed := consumed + 1;
      }
      ghost var start := consumed;
      var read: seq<seq<string>> := [];
      while consumed < |file|
        invariant start <= consumed <= |file|
        invariant read == SplitLines(file[start..consumed])
        invariant header == old(header) && filteredContent == old(filteredContent)
        decreases |file| - consumed
      {
        read := read + [Split(file[consumed], ',')];
        consumed := consumed + 1;
      }
      assert file[start..consumed] == file[start..];
      rows := Reverse(read);
    }

    /**
     * GetDataRow: the query type chooses the branch.  A select-all reads the rest of the file
     * through the reader; fields with an order-by go to GetQueryWithOrderBy; the NOT type goes to
     * GetQueryWithConditions; aggregates go to ParseAggregateFunctions; a type outside the
     * chain returns an empty data set.
     */
    method GetDataRow(qp: QueryParameter) returns (r: Result<DataSet>)
      requires Valid()
      modifies this
      ensures Valid()
      ensures qp.QueryType == SimpleQuery ==>
                && r == Ok(Rows(RemainingRows(file, old(consumed))))
                && consumed == |file| && header == old(header) && filteredContent == old(filteredContent)
      ensures qp.QueryType == SimpleQueryWithFields && |qp.OrderByFields| > 0 ==>
                && header == HeaderAfter(file, old(header)) && consumed == old(consumed)
                && filteredContent == FilteredAfter(file, old(filteredContent), qp.ConditionGroups, parseDate)
                && (FilterError(file, qp.ConditionGroups, parseDate).Some? ==> r == Throw(FilterError(file, qp.ConditionGroups, parseDate).value))
                && (FilterError(file, qp.ConditionGroups, parseDate).None? ==>
                      r == (var rows :- OrderByRows(filteredContent, header, qp.OrderByFields, qp.Fields, parseDate, formatDate);
                            Ok(Rows(rows))))
      ensures (qp.QueryType == SimpleQueryWithFields && |qp.OrderByFields| == 0) || IsLegacy(qp.QueryType) ==>
                && r == Ok(Legacy(qp.QueryType))
                && header == old(header) && filteredContent == old(filteredContent) && consumed == old(consumed)
      ensures qp.QueryType == RestrictionWithLogicalOperatorNot ==>
                && header == HeaderAfter(file, old(header)) && consumed == old(consumed)
                && filteredContent == FilteredAfter(file, old(filteredContent), qp.ConditionGroups, parseDate)
                && r == match FilterError(file, qp.ConditionGroups, parseDate)
                        case Some(e) => Throw(e)
                        case None => ConditionsResult(filteredContent, header, qp.GroupByFields, qp.Fields)
      ensures qp.QueryType == AggregateFunctionQuery ==>
                && r == AggregatesResult(file, qp.GroupByFields, qp.AggregateFunctions, formatAverage)
                && header == HeaderAfter(file, old(header))
                && filteredContent == old(filteredContent) && consumed == old(consumed)
      ensures qp.QueryType !in {SimpleQuery, SimpleQueryWithFields, RestrictionWithLogicalOperatorNot, AggregateFunctionQuery}
              && !IsLegacy(qp.QueryType) ==>
                && r == Ok(Rows([]))
                && header == old(header) && filteredContent == old(filteredContent) && consumed == old(consumed)
    {
      var queryType := qp.QueryType;
      if queryType == SimpleQuery {
        var rows := ReadRemaining();
        r := Ok(Rows(rows));
      } else if queryType == SimpleQueryWithFields {
        if |qp.OrderByFields| != 0 {
          r := GetQueryWithOrderBy(qp.OrderByFields, qp.Fields, qp.ConditionGroups);
        } else {
          r := Ok(Legacy(queryType));
        }
      } else if IsLegacy(queryType) {
        r := Ok(Legacy(queryType));
      } else if queryType == RestrictionWithLogicalOperatorNot {
        r := GetQueryWithConditions(qp.GroupByFields, qp.Fields, qp.ConditionGroups);
      } else if queryType == AggregateFunctionQuery {
        r := ParseAggregateFunctions(qp.GroupByFields, qp.AggregateFunctions);
      } else {
        r := Ok(Rows([]));
      }
    }
  }
}
