/**
 * The result of each query path of the processor as a value computed from the lines it reads:
 * the rows of a select-all, the rows or per-key totals of a query with conditions, and the
 * rows of an ordered query.  The processor's methods are proved to return these.
 */
module QueryResults {
  import opened Wrappers
  import opened Text
  import opened Sorting
  import opened Grouping
  import opened Projection
  import opened Ipl
  import opened Aggregation
  import opened SimpleAggregation
  import opened AggregateFunctions
  import opened DataSets

  // ---------------------------------------------------------------- select *

  /** Rows.Reverse(): the last element first. */
  function Reverse<T>(xs: seq<T>): (r: seq<T>)
    ensures |r| == |xs|
  {
    if |xs| == 0 then [] else [xs[|xs| - 1]] + Reverse(xs[..|xs| - 1])
  }

  lemma {:induction false} ReverseAt<T>(xs: seq<T>)
    ensures forall i :: 0 <= i < |xs| ==> Reverse(xs)[i] == xs[|xs| - 1 - i]
  {
    if |xs| > 0 {
      var init := xs[..|xs| - 1];
      ReverseAt(init);
      forall i | 1 <= i < |xs|
        ensures Reverse(xs)[i] == xs[|xs| - 1 - i]
      {
        assert Reverse(xs)[i] == Reverse(init)[i - 1];
      }
    }
  }

  /** Each line split on ','. */
  function SplitLines(lines: seq<string>): (rows: seq<seq<string>>)
    ensures |rows| == |lines|
  {
    seq(|lines|, i requires 0 <= i < |lines| => Split(lines[i], ','))
  }

  /** What a reader positioned after `consumed` lines returns for a select-all: the header line is skipped, the rest come last first. */
  function RemainingRows(file: seq<string>, consumed: nat): seq<seq<string>>
    requires consumed <= |file|
  {
    var start := if consumed < |file| then consumed + 1 else |file|;
    Reverse(SplitLines(file[start..]))
  }

  /**
   * A select-all on a fresh reader returns one row per data line, the last line first, and
   * each row joined with ',' gives its line back.
   */
  lemma SelectAllRows(file: seq<string>)
    ensures var rows := RemainingRows(file, 0);
            && |rows| == (if |file| == 0 then 0 else |file| - 1)
            && forall i :: 0 <= i < |rows| ==>
                 rows[i] == Split(file[|file| - 1 - i], ',') && Join(rows[i], ",") == file[|file| - 1 - i]
  {
    if |file| > 0 {
      var lines := file[1..];
      ReverseAt(SplitLines(lines));
      forall i | 0 <= i < |lines|
        ensures Join(Split(lines[i], ','), ",") == lines[i]
      {
        JoinSplit(lines[i], ',');
      }
    }
  }

  // ---------------------------------------------------------------- reading every line

  /** Each line read in turn, in order; the first line that raises stops the scan with its exception. */
  function ReadAll<T>(lines: seq<string>, read: string -> Result<T>): (r: Result<seq<T>>)
    ensures r.Ok? ==> |r.value| == |lines|
  {
    if |lines| == 0 then Ok([])
    else
      var init :- ReadAll(lines[..|lines| - 1], read);
      var x :- read(lines[|lines| - 1]);
      Ok(init + [x])
  }

  /**
   * The scan succeeds exactly when every line reads, and then holds each line's value in order;
   * otherwise it raises the exception of the first line that does not read.
   */
  lemma {:induction false} ReadAllMeaning<T>(lines: seq<string>, read: string -> Result<T>)
    ensures ReadAll(lines, read).Ok? <==> forall k :: 0 <= k < |lines| ==> read(lines[k]).Ok?
    ensures ReadAll(lines, read).Ok? ==> forall k :: 0 <= k < |lines| ==> ReadAll(lines, read).value[k] == read(lines[k]).value
    ensures ReadAll(lines, read).Throw? ==>
              exists j :: 0 <= j < |lines| && read(lines[j]) == Throw(ReadAll(lines, read).error)
                          && forall k :: 0 <= k < j ==> read(lines[k]).Ok?
  {
    if |lines| > 0 {
      var init := lines[..|lines| - 1];
      ReadAllMeaning(init, read);
      assert forall k :: 0 <= k < |init| ==> init[k] == lines[k];
    }
  }

  /** One more line that reads extends the scan by its value. */
  lemma ReadAllNext<T>(lines: seq<string>, i: nat, read: string -> Result<T>, xs: seq<T>, x: T)
    requires i < |lines| && ReadAll(lines[..i], read) == Ok(xs) && read(lines[i]) == Ok(x)
    ensures ReadAll(lines[..i + 1], read) == Ok(xs + [x])
  {
    assert lines[..i + 1][..i] == lines[..i];
  }

  /** A line that raises, after lines that read, makes the scan raise its exception. */
  lemma ReadAllLineStops<T>(lines: seq<string>, i: nat, read: string -> Result<T>, e: Exception)
    requires i < |lines| && ReadAll(lines[..i], read).Ok? && read(lines[i]) == Throw(e)
    ensures ReadAll(lines, read) == Throw(e)
  {
    assert lines[..i + 1][..i] == lines[..i];
    ReadAllStops(lines, i + 1, read, e);
  }

  // ---------------------------------------------------------------- with conditions, no group-by

  /** GetSelectedValues on a line split on ','. */
  function SelectedRowReader(header: seq<string>, fields: seq<string>): string -> Result<seq<string>>
  {
    line => SelectedValues(Split(line, ','), header, fields)
  }

  /** GetSelectedValues of every kept line split on ',', in order. */
  function SelectedRows(content: seq<string>, header: seq<string>, fields: seq<string>): (r: Result<seq<seq<string>>>)
    ensures r.Ok? ==> |r.value| == |content|
  {
    ReadAll(content, SelectedRowReader(header, fields))
  }

  // ---------------------------------------------------------------- with conditions, grouped

  /** The dictionary's entries as (key, totals) pairs in enumeration order. */
  function TotalsEntries(t: Table): (es: seq<(string, Value)>)
    requires forall k :: k in t.keys ==> k in t.entries
    ensures Keys(es) == t.keys
  {
    seq(|t.keys|, i requires 0 <= i < |t.keys| => (t.keys[i], Totals(t.entries[t.keys[i]])))
  }

  /**
   * The group value (column gi) and selected value (column si) of every kept line added to an
   * empty dictionary, then copied entry by entry into the grouped data set.
   */
  function GroupedTotals(content: seq<string>, gi: int, si: int): Result<seq<(string, Value)>>
  {
    var pairs :- LinePairs(content, gi, si);
    AddAllValid(EmptyTable, pairs);
    Ok(TotalsEntries(AddAll(EmptyTable, pairs)))
  }

  /**
   * When every kept line has both columns, there is exactly one entry per distinct group value,
   * and each holds the wrapped sum, least, greatest and number of that value's selected values.
   */
  lemma GroupedTotalsMeaning(content: seq<string>, gi: int, si: int, pairs: seq<(string, int)>)
    requires LinePairs(content, gi, si) == Ok(pairs)
    ensures var r := GroupedTotals(content, gi, si);
            && r.Ok?
            && Distinct(Keys(r.value))
            && (forall k :: k in Keys(r.value) <==> |ValuesFor(pairs, k)| > 0)
            && forall i :: 0 <= i < |r.value| ==>
                 |ValuesFor(pairs, r.value[i].0)| > 0 && r.value[i].1 == Totals(Summary(ValuesFor(pairs, r.value[i].0)))
  {
    AddAllValid(EmptyTable, pairs);
    AddAllAccumulate(pairs);
    var t := AddAll(EmptyTable, pairs);
    forall k
      ensures k in t.entries <==> |ValuesFor(pairs, k)| > 0
      ensures k in t.entries ==> t.entries[k] == Summary(ValuesFor(pairs, k))
    {
      AccumulateMeaning(pairs, k);
    }
  }

  /** A kept line without the group or the selected column raises. */
  lemma GroupedTotalsMissingColumn(content: seq<string>, gi: int, si: int)
    requires LinePairs(content, gi, si).Throw?
    ensures GroupedTotals(content, gi, si) == Throw(IndexOutOfRange)
  {
  }

  /**
   * The result of GetQueryWithConditions over the kept lines: with a group-by field, the totals
   * of the first selected field per value of the first group field (no selected field raises);
   * otherwise the projected rows.
   */
  function ConditionsResult(content: seq<string>, header: seq<string>, groupByFields: seq<string>,
                            fields: seq<string>): (r: Result<DataSet>)
    ensures r.Ok? && |groupByFields| > 0 ==> r.value.Grouped?
    ensures r.Ok? && |groupByFields| == 0 ==> r.value.Rows? && |r.value.rows| == |content|
    ensures |groupByFields| > 0 && |fields| == 0 ==> r == Throw(IndexOutOfRange)
  {
    if |groupByFields| > 0 then
      var gi := GetIndexOfField(header, groupByFields[0]);
      if |fields| == 0 then Throw(IndexOutOfRange)
      else
        var es :- GroupedTotals(content, gi, GetIndexOfField(header, fields[0]));
        Ok(Grouped(es))
    else
      var rows :- SelectedRows(content, header, fields);
      Ok(Rows(rows))
  }

  // ---------------------------------------------------------------- aggregates

  /** ParseAggregateFunctions: ungrouped without a group-by field, grouped otherwise. */
  function AggregatesResult(file: seq<string>, groupByFields: seq<string>, aggregates: seq<AggregateFunction>,
                            formatAverage: (int, int) -> string): (r: Result<DataSet>)
    ensures r.Ok? ==> r.value.Grouped?
    ensures |file| == 0 ==> r == Throw(NullReference)
  {
    if |groupByFields| == 0 then SimpleAggregatesOf(file, aggregates, formatAverage)
    else GroupByAggregates(file, groupByFields, aggregates, formatAverage)
  }

  // ---------------------------------------------------------------- order by

  /** ParseData on one line. */
  function RecordReader(parseDate: string -> Option<int>): string -> Result<seq<Cell>>
  {
    line => ParseRecord(line, parseDate)
  }

  /** ParseData: every kept line read as a record, in order; the first bad line raises. */
  function ParseRecords(lines: seq<string>, parseDate: string -> Option<int>): (r: Result<seq<seq<Cell>>>)
    ensures r.Ok? ==> |r.value| == |lines|
  {
    ReadAll(lines, RecordReader(parseDate))
  }

  /** ConvertObjecttoString: each record written back as a line. */
  function RecordTexts(records: seq<seq<Cell>>, formatDate: int -> string): (ts: seq<string>)
    ensures |ts| == |records|
  {
    seq(|records|, i requires 0 <= i < |records| => RecordText(records[i], formatDate))
  }

  /** row[GetIndexOfField(field)] for each requested field in order; an unknown field raises. */
  function Project(row: seq<string>, header: seq<string>, fields: seq<string>): (r: Result<seq<string>>)
    ensures r.Throw? ==> r.error == IndexOutOfRange
  {
    if |fields| == 0 then Ok([])
    else
      var init :- Project(row, header, fields[..|fields| - 1]);
      var v :- CellAt(row, GetIndexOfField(header, fields[|fields| - 1]));
      Ok(init + [v])
  }

  /**
   * The projection succeeds exactly when every requested field names a column inside the row,
   * and then holds the value under each requested field, in request order.
   */
  lemma {:induction false} ProjectMeaning(row: seq<string>, header: seq<string>, fields: seq<string>)
    ensures Project(row, header, fields).Ok?
            <==> forall j :: 0 <= j < |fields| ==> 0 <= GetIndexOfField(header, fields[j]) < |row|
    ensures Project(row, header, fields).Ok? ==>
              |Project(row, header, fields).value| == |fields|
              && forall j :: 0 <= j < |fields| ==> Project(row, header, fields).value[j] == row[GetIndexOfField(header, fields[j])]
  {
    if |fields| > 0 {
      var init := fields[..|fields| - 1];
      ProjectMeaning(row, header, init);
      assert forall j :: 0 <= j < |init| ==> init[j] == fields[j];
    }
  }

  /** A requested field outside the row, after fields inside it, makes the projection raise. */
  lemma {:induction false} ProjectStops(row: seq<string>, header: seq<string>, fields: seq<string>, m: nat)
    requires 0 < m <= |fields|
    requires Project(row, header, fields[..m - 1]).Ok?
    requires !(0 <= GetIndexOfField(header, fields[m - 1]) < |row|)
    ensures Project(row, header, fields) == Throw(IndexOutOfRange)
  {
    if m < |fields| {
      assert fields[..|fields| - 1][..m - 1] == fields[..m - 1];
      assert fields[..|fields| - 1][m - 1] == fields[m - 1];
      ProjectStops(row, header, fields[..|fields| - 1], m);
    } else {
      assert fields[..m - 1] == fields[..|fields| - 1];
    }
  }

  /** A written-back line split on ',' and projected. */
  function ProjectReader(header: seq<string>, fields: seq<string>): string -> Result<seq<string>>
  {
    text => Project(Split(text, ','), header, fields)
  }

  /** Each written-back line split on ',' and projected, in order. */
  function ProjectRows(texts: seq<string>, header: seq<string>, fields: seq<string>): (r: Result<seq<seq<string>>>)
    ensures r.Ok? ==> |r.value| == |texts|
  {
    ReadAll(texts, ProjectReader(header, fields))
  }

  /**
   * GetQueryWithOrderBy over the kept lines: read the records, apply sortData for each order-by
   * field, write the records back and project each onto the requested fields.
   */
  function OrderByRows(content: seq<string>, header: seq<string>, orderBy: seq<string>, fields: seq<string>,
                       parseDate: string -> Option<int>, formatDate: int -> string): Result<seq<seq<string>>>
  {
    var records :- ParseRecords(content, parseDate);
    var ordering :- SortChain(orderBy, |orderBy|);
    ProjectRows(RecordTexts(Arrange(ordering, records), formatDate), header, fields)
  }

  /**
   * With known order-by fields and readable lines, the rows are the projections of a
   * permutation of the records, sorted on the order-by columns (id after a leading city), ties
   * kept in file order.
   */
  lemma OrderByRowsSorted(content: seq<string>, header: seq<string>, orderBy: seq<string>, fields: seq<string>,
                          parseDate: string -> Option<int>, formatDate: int -> string,
                          records: seq<seq<Cell>>, z: seq<Cell>)
    requires |orderBy| >= 1 && AllKnown(orderBy)
    requires ParseRecords(content, parseDate) == Ok(records)
    ensures var keys := ExpectedKeys(orderBy, |orderBy|);
            var out := SortBy(records, Comparer(keys));
            && multiset(out) == multiset(records)
            && Sorted(out, Comparer(keys))
            && Ties(out, z, Comparer(keys)) == Ties(records, z, Comparer(keys))
            && OrderByRows(content, header, orderBy, fields, parseDate, formatDate)
               == ProjectRows(RecordTexts(out, formatDate), header, fields)
  {
    SortChainKnown(orderBy, |orderBy|);
    ArrangeSorts(ExpectedKeys(orderBy, |orderBy|), records, z);
  }

  /** Order-by fields that are none of the record's properties leave the records in file order. */
  lemma OrderByUnknownFields(content: seq<string>, header: seq<string>, orderBy: seq<string>, fields: seq<string>,
                             parseDate: string -> Option<int>, formatDate: int -> string, records: seq<seq<Cell>>)
    requires forall k :: 0 <= k < |orderBy| ==> !Known(orderBy[k])
    requires ParseRecords(content, parseDate) == Ok(records)
    ensures OrderByRows(content, header, orderBy, fields, parseDate, formatDate)
            == ProjectRows(RecordTexts(records, formatDate), header, fields)
  {
    SortChainUnknown(orderBy, |orderBy|);
  }

  lemma {:induction false} SortChainUnknown(fields: seq<string>, n: nat)
    requires n <= |fields|
    requires forall k :: 0 <= k < |fields| ==> !Known(fields[k])
    ensures SortChain(fields, n) == Ok(Unordered)
  {
    if n > 0 {
      SortChainUnknown(fields, n - 1);
    }
  }

  /** Once the chain raises, later fields do not run. */
  lemma {:induction false} SortChainStops(fields: seq<string>, m: nat, n: nat, e: Exception)
    requires m <= n <= |fields|
    requires SortChain(fields, m) == Throw(e)
    ensures SortChain(fields, n) == Throw(e)
  {
    if n > m {
      SortChainStops(fields, m, n - 1, e);
    }
  }

  /** An unknown first order-by field followed by a known one makes ThenBy's cast fail. */
  lemma OrderByInvalidCast(content: seq<string>, header: seq<string>, orderBy: seq<string>, fields: seq<string>,
                           parseDate: string -> Option<int>, formatDate: int -> string)
    requires |orderBy| >= 2 && !Known(orderBy[0]) && Known(orderBy[1])
    requires ParseRecords(content, parseDate).Ok?
    ensures OrderByRows(content, header, orderBy, fields, parseDate, formatDate) == Throw(InvalidCast)
  {
    UnknownFirstField(orderBy);
    SortChainStops(orderBy, 2, |orderBy|, InvalidCast);
  }

  /** Once a line raises, the later lines are not read: the scan raises the same exception. */
  lemma {:induction false} ReadAllStops<T>(lines: seq<string>, m: nat, read: string -> Result<T>, e: Exception)
    requires m <= |lines|
    requires ReadAll(lines[..m], read) == Throw(e)
    ensures ReadAll(lines, read) == Throw(e)
  {
    if m < |lines| {
      assert lines[..|lines| - 1][..m] == lines[..m];
      ReadAllStops(lines[..|lines| - 1], m, read, e);
    } else {
      assert lines[..m] == lines;
    }
  }
}
