/**
 * The ungrouped aggregates of the query processor (ParseSimpleAggregateFunctions and the
 * Find*WithoutWhere helpers): each aggregate of the select list becomes one entry of a grouped
 * data set, keyed function(field), holding its statistic over one column of every data line.
 */
module SimpleAggregation {
  import opened Wrappers
  import opened Text
  import opened Int32
  import opened AggregateFunctions
  import opened Sorting
  import opened Grouping
  import opened Projection
  import opened DataSets

  /** The key an aggregate is stored under: function(field). */
  function Label(a: AggregateFunction): string
  {
    a.functionName + "(" + a.field + ")"
  }

  /** Convert.ToInt32(line.Split(",")[index]). */
  function ColumnInt(line: string, index: int): (r: Result<int>)
    ensures r.Ok? ==> InRange(r.value)
    ensures r.Throw? ==> r.error == IndexOutOfRange || r.error == Format || r.error == Overflow
  {
    var cell :- CellAt(Split(line, ','), index);
    Parse(cell)
  }

  /** The column's values line by line; the first line that cannot be read raises. */
  function ColumnInts(lines: seq<string>, index: int): (r: Result<seq<int>>)
    ensures r.Ok? ==> |r.value| == |lines|
    ensures r.Ok? ==> forall k :: 0 <= k < |lines| ==> ColumnInt(lines[k], index) == Ok(r.value[k])
    ensures r.Throw? ==> r.error == IndexOutOfRange || r.error == Format || r.error == Overflow
  {
    if |lines| == 0 then Ok([])
    else
      var init :- ColumnInts(lines[..|lines| - 1], index);
      var v :- ColumnInt(lines[|lines| - 1], index);
      assert forall k :: 0 <= k < |lines| ==> ColumnInt(lines[k], index) == Ok((init + [v])[k]) by {
        forall k | 0 <= k < |lines|
          ensures ColumnInt(lines[k], index) == Ok((init + [v])[k])
        {
          if k < |lines| - 1 {
            assert lines[..|lines| - 1][k] == lines[k];
          }
        }
      }
      Ok(init + [v])
  }

  /** A column every line of which can be read gives its values. */
  lemma {:induction false} ColumnIntsReadable(lines: seq<string>, index: int)
    requires forall k :: 0 <= k < |lines| ==> ColumnInt(lines[k], index).Ok?
    ensures ColumnInts(lines, index).Ok?
  {
    if |lines| > 0 {
      var init := lines[..|lines| - 1];
      assert forall k :: 0 <= k < |init| ==> init[k] == lines[k];
      ColumnIntsReadable(init, index);
      assert ColumnInt(lines[|lines| - 1], index).Ok?;
    }
  }

  /** The values of a non-empty column are those of the lines before the last, then the last. */
  lemma ColumnIntsSnoc(lines: seq<string>, index: int)
    requires |lines| > 0 && ColumnInts(lines, index).Ok?
    ensures ColumnInts(lines[..|lines| - 1], index) == Ok(ColumnInts(lines, index).value[..|lines| - 1])
  {
    var init := ColumnInts(lines[..|lines| - 1], index).value;
    var v := ColumnInt(lines[|lines| - 1], index).value;
    assert ColumnInts(lines, index).value == init + [v];
  }

  /** Reading one more line appends its value. */
  lemma ColumnIntsAppend(lines: seq<string>, line: string, index: int, vs: seq<int>, v: int)
    requires ColumnInts(lines, index) == Ok(vs) && ColumnInt(line, index) == Ok(v)
    ensures ColumnInts(lines + [line], index) == Ok(vs + [v])
  {
    assert (lines + [line])[..|lines|] == lines;
  }

  /**
   * Enumerable.Sum over Convert.ToInt32 of the column: line by line, the cell is read and added
   * with checked arithmetic, so a partial sum outside the Int32 range raises OverflowException.
   */
  function ColumnSum(lines: seq<string>, index: int): (r: Result<int>)
    ensures r.Ok? ==> InRange(r.value)
    ensures r.Throw? ==> r.error == IndexOutOfRange || r.error == Format || r.error == Overflow
  {
    if |lines| == 0 then Ok(0)
    else
      var s :- ColumnSum(lines[..|lines| - 1], index);
      var v :- ColumnInt(lines[|lines| - 1], index);
      if InRange(s + v) then Ok(s + v) else Throw(Overflow)
  }

  /** Checked addition of the values in order never leaves the Int32 range. */
  predicate PartialSumsInRange(vs: seq<int>)
  {
    forall k :: 0 <= k <= |vs| ==> InRange(SeqSum(vs[..k]))
  }

  lemma PartialSumsSnoc(vs: seq<int>)
    requires |vs| > 0
    ensures SeqSum(vs) == SeqSum(vs[..|vs| - 1]) + vs[|vs| - 1]
    ensures PartialSumsInRange(vs) <==> PartialSumsInRange(vs[..|vs| - 1]) && InRange(SeqSum(vs))
  {
    var n := |vs|;
    var init := vs[..n - 1];
    assert vs[..n] == vs;
    if PartialSumsInRange(vs) {
      forall k | 0 <= k <= |init|
        ensures InRange(SeqSum(init[..k]))
      {
        assert init[..k] == vs[..k];
      }
      assert PartialSumsInRange(init);
      assert InRange(SeqSum(vs[..n]));
    }
    if PartialSumsInRange(init) && InRange(SeqSum(vs)) {
      forall k | 0 <= k <= n
        ensures InRange(SeqSum(vs[..k]))
      {
        if k < n {
          assert init[..k] == vs[..k];
        }
      }
      assert PartialSumsInRange(vs);
    }
  }

  /**
   * On a readable column the sum is the sum of its values, and it raises exactly when one of
   * the partial sums leaves the Int32 range.
   */
  lemma {:induction false} ColumnSumMeaning(lines: seq<string>, index: int, vs: seq<int>)
    requires ColumnInts(lines, index) == Ok(vs)
    ensures ColumnSum(lines, index).Ok? <==> PartialSumsInRange(vs)
    ensures ColumnSum(lines, index).Ok? ==> ColumnSum(lines, index).value == SeqSum(vs)
    ensures ColumnSum(lines, index).Throw? ==> ColumnSum(lines, index).error == Overflow
  {
    var n := |lines|;
    if n == 0 {
      assert vs[..0] == [];
    } else {
      ColumnIntsSnoc(lines, index);
      ColumnSumMeaning(lines[..n - 1], index, vs[..n - 1]);
      PartialSumsSnoc(vs);
      assert ColumnInt(lines[n - 1], index) == Ok(vs[n - 1]);
    }
  }

  /** A column that cannot be read makes the sum raise. */
  lemma {:induction false} ColumnSumUnreadable(lines: seq<string>, index: int)
    requires ColumnInts(lines, index).Throw?
    ensures ColumnSum(lines, index).Throw?
  {
    var n := |lines|;
    if ColumnInts(lines[..n - 1], index).Throw? {
      ColumnSumUnreadable(lines[..n - 1], index);
    }
  }

  // ------------------------------------------------------------ min and max, corrected

  /** The least value of the column, or Int32.MinValue (the seed) when there is no data line. */
  function ColumnMin(lines: seq<string>, index: int): (r: Result<int>)
    ensures r.Ok? ==> forall k :: 0 <= k < |lines| ==> ColumnInt(lines[k], index).Ok? && r.value <= ColumnInt(lines[k], index).value
    ensures r.Ok? && |lines| > 0 ==> exists k :: 0 <= k < |lines| && ColumnInt(lines[k], index) == Ok(r.value)
    ensures r.Throw? <==> ColumnInts(lines, index).Throw?
  {
    var vs :- ColumnInts(lines, index);
    Ok(if |vs| == 0 then MinValue else SeqMin(vs))
  }

  /** The greatest value of the column, or Int32.MinValue (the seed) when there is no data line. */
  function ColumnMax(lines: seq<string>, index: int): (r: Result<int>)
    ensures r.Ok? ==> forall k :: 0 <= k < |lines| ==> ColumnInt(lines[k], index).Ok? && ColumnInt(lines[k], index).value <= r.value
    ensures r.Ok? && |lines| > 0 ==> exists k :: 0 <= k < |lines| && ColumnInt(lines[k], index) == Ok(r.value)
    ensures r.Throw? <==> ColumnInts(lines, index).Throw?
  {
    var vs :- ColumnInts(lines, index);
    Ok(if |vs| == 0 then MinValue else SeqMax(vs))
  }

  // ------------------------------------------------------------ min and max, as written

  /**
   * FindMinValue as written: Int32.MinValue stands for "no value yet", so the cell's value
   * replaces it; otherwise the smaller of the two is kept.
   */
  function FindMinValue(minValue: int, content: string): Result<int>
  {
    var value :- Parse(content);
    Ok(if minValue == MinValue then value else if minValue < value then minValue else value)
  }

  /**
   * FindMaxValue as written: Int32.MaxValue stands for "no value yet", so the cell's value
   * replaces it; otherwise the greater of the two is kept.
   */
  function FindMaxValue(maxValue: int, content: string): Result<int>
  {
    var value :- Parse(content);
    Ok(if maxValue == MaxValue then value else if maxValue > value then maxValue else value)
  }

  /** FindMinWithoutWhere as written: FindMinValue over the column, seeded with Int32.MinValue. */
  function MinWithoutWhere(lines: seq<string>, index: int): Result<int>
  {
    if |lines| == 0 then Ok(MinValue)
    else
      var m :- MinWithoutWhere(lines[..|lines| - 1], index);
      var cell :- CellAt(Split(lines[|lines| - 1], ','), index);
      FindMinValue(m, cell)
  }

  /** FindMaxWithoutWhere as written: FindMaxValue over the column, seeded with Int32.MinValue. */
  function MaxWithoutWhere(lines: seq<string>, index: int): Result<int>
  {
    if |lines| == 0 then Ok(MinValue)
    else
      var m :- MaxWithoutWhere(lines[..|lines| - 1], index);
      var cell :- CellAt(Split(lines[|lines| - 1], ','), index);
      FindMaxValue(m, cell)
  }

  /** The as-written minimum raises exactly when the column cannot be read, with the same exception. */
  lemma {:induction false} MinWithoutWhereErrors(lines: seq<string>, index: int)
    ensures MinWithoutWhere(lines, index).Throw? <==> ColumnInts(lines, index).Throw?
    ensures MinWithoutWhere(lines, index).Throw? ==> MinWithoutWhere(lines, index).error == ColumnInts(lines, index).error
  {
    if |lines| > 0 {
      MinWithoutWhereErrors(lines[..|lines| - 1], index);
    }
  }

  /** The as-written maximum raises exactly when the column cannot be read, with the same exception. */
  lemma {:induction false} MaxWithoutWhereErrors(lines: seq<string>, index: int)
    ensures MaxWithoutWhere(lines, index).Throw? <==> ColumnInts(lines, index).Throw?
    ensures MaxWithoutWhere(lines, index).Throw? ==> MaxWithoutWhere(lines, index).error == ColumnInts(lines, index).error
  {
    if |lines| > 0 {
      MaxWithoutWhereErrors(lines[..|lines| - 1], index);
    }
  }

  /** When no value of the column is Int32.MinValue, the as-written minimum is the least value. */
  lemma {:induction false} MinWithoutWhereAgrees(lines: seq<string>, index: int, vs: seq<int>)
    requires ColumnInts(lines, index) == Ok(vs) && MinValue !in vs
    ensures MinWithoutWhere(lines, index) == ColumnMin(lines, index)
  {
    var n := |lines|;
    if n > 0 {
      var init := vs[..n - 1];
      ColumnIntsSnoc(lines, index);
      assert forall k :: 0 <= k < |init| ==> init[k] == vs[k];
      MinWithoutWhereAgrees(lines[..n - 1], index, init);
      var v := vs[n - 1];
      assert ColumnInt(lines[n - 1], index) == Ok(v);
      var m := if n == 1 then MinValue else SeqMin(init);
      assert ColumnMin(lines[..n - 1], index) == Ok(m);
      MinWithoutWhereStep(lines, index, m, v);
      if n > 1 {
        assert m in init && m != MinValue;
        assert SeqMin(vs) == if m > v then v else m;
      } else {
        assert vs == [v];
      }
    }
  }

  /** When no value of the column is Int32.MaxValue, the as-written maximum is the greatest value. */
  lemma {:induction false} MaxWithoutWhereAgrees(lines: seq<string>, index: int, vs: seq<int>)
    requires ColumnInts(lines, index) == Ok(vs) && MaxValue !in vs
    ensures MaxWithoutWhere(lines, index) == ColumnMax(lines, index)
  {
    var n := |lines|;
    if n > 0 {
      var init := vs[..n - 1];
      ColumnIntsSnoc(lines, index);
      assert forall k :: 0 <= k < |init| ==> init[k] == vs[k];
      MaxWithoutWhereAgrees(lines[..n - 1], index, init);
      var v := vs[n - 1];
      assert ColumnInt(lines[n - 1], index) == Ok(v);
      var m := if n == 1 then MinValue else SeqMax(init);
      assert ColumnMax(lines[..n - 1], index) == Ok(m);
      MaxWithoutWhereStep(lines, index, m, v);
      if n > 1 {
        assert m in init && m != MaxValue;
        assert SeqMax(vs) == if m < v then v else m;
      } else {
        assert vs == [v];
      }
    }
  }

  /** Int32.ToString writes no comma, so a number is one CSV cell. */
  lemma NumberIsOneCell(n: int)
    requires InRange(n)
    ensures Split(ToString(n), ',') == [ToString(n)]
    ensures ColumnInt(ToString(n), 0) == Ok(n)
  {
    var ds := NatDigits(if n < 0 then -n else n);
    assert forall i :: 0 <= i < |ds| ==> IsDigit(ds[i]);
    assert ToString(n) == (if n < 0 then "-" else "") + ds;
    SplitWithoutSeparator(ToString(n), ',');
    ParseToString(n);
  }

  /** One more line of the as-written minimum: FindMinValue applied to the running value and the line's cell. */
  lemma MinWithoutWhereStep(lines: seq<string>, index: int, m: int, v: int)
    requires |lines| > 0 && MinWithoutWhere(lines[..|lines| - 1], index) == Ok(m)
    requires ColumnInt(lines[|lines| - 1], index) == Ok(v)
    ensures MinWithoutWhere(lines, index) == Ok(if m == MinValue then v else if m < v then m else v)
  {
  }

  /** One more line of the as-written maximum: FindMaxValue applied to the running value and the line's cell. */
  lemma MaxWithoutWhereStep(lines: seq<string>, index: int, m: int, v: int)
    requires |lines| > 0 && MaxWithoutWhere(lines[..|lines| - 1], index) == Ok(m)
    requires ColumnInt(lines[|lines| - 1], index) == Ok(v)
    ensures MaxWithoutWhere(lines, index) == Ok(if m == MaxValue then v else if m > v then m else v)
  {
  }

  /** The as-written minimum of two data lines whose column reads a and then b. */
  lemma MinOfTwoLines(l0: string, l1: string, a: int, b: int)
    requires ColumnInt(l0, 0) == Ok(a) && ColumnInt(l1, 0) == Ok(b)
    ensures MinWithoutWhere([l0, l1], 0) == Ok(if a == MinValue then b else if a < b then a else b)
  {
    assert [l0][..0] == [];
    MinWithoutWhereStep([l0], 0, MinValue, a);
    assert [l0, l1][..1] == [l0];
    MinWithoutWhereStep([l0, l1], 0, a, b);
  }

  /** The as-written maximum of two data lines whose column reads a and then b. */
  lemma MaxOfTwoLines(l0: string, l1: string, a: int, b: int)
    requires ColumnInt(l0, 0) == Ok(a) && ColumnInt(l1, 0) == Ok(b)
    ensures MaxWithoutWhere([l0, l1], 0) == Ok(if a == MaxValue then b else if a > b then a else b)
  {
    assert [l0][..0] == [];
    MaxWithoutWhereStep([l0], 0, MinValue, a);
    assert [l0, l1][..1] == [l0];
    MaxWithoutWhereStep([l0, l1], 0, a, b);
  }

  /** The column of two data lines reading a and then b. */
  lemma ColumnOfTwoLines(l0: string, l1: string, a: int, b: int)
    requires ColumnInt(l0, 0) == Ok(a) && ColumnInt(l1, 0) == Ok(b)
    ensures ColumnInts([l0, l1], 0) == Ok([a, b])
  {
    ColumnIntsAppend([], l0, 0, [], a);
    assert [] + [l0] == [l0] && [] + [a] == [a];
    ColumnIntsAppend([l0], l1, 0, [a], b);
    assert [l0] + [l1] == [l0, l1] && [a] + [b] == [a, b];
  }

  /**
   * Two data lines whose column reads Int32.MinValue and then 5: the as-written minimum takes
   * the real Int32.MinValue for "no value yet" and answers 5; the least value is Int32.MinValue.
   */
  lemma MinWithoutWhereCounterexample(l0: string, l1: string)
    requires ColumnInt(l0, 0) == Ok(MinValue) && ColumnInt(l1, 0) == Ok(5)
    ensures MinWithoutWhere([l0, l1], 0) == Ok(5)
    ensures ColumnMin([l0, l1], 0) == Ok(MinValue)
  {
    MinOfTwoLines(l0, l1, MinValue, 5);
    ColumnOfTwoLines(l0, l1, MinValue, 5);
    assert SeqMin([MinValue, 5]) <= MinValue;
  }

  /**
   * Two data lines whose column reads Int32.MaxValue and then 5: the as-written maximum tests
   * the Int32.MaxValue sentinel although it is seeded with Int32.MinValue, so it takes the real
   * Int32.MaxValue for "no value yet" and answers 5; the greatest value is Int32.MaxValue.
   */
  lemma MaxWithoutWhereCounterexample(l0: string, l1: string)
    requires ColumnInt(l0, 0) == Ok(MaxValue) && ColumnInt(l1, 0) == Ok(5)
    ensures MaxWithoutWhere([l0, l1], 0) == Ok(5)
    ensures ColumnMax([l0, l1], 0) == Ok(MaxValue)
  {
    MaxOfTwoLines(l0, l1, MaxValue, 5);
    ColumnOfTwoLines(l0, l1, MaxValue, 5);
    assert SeqMax([MaxValue, 5]) >= MaxValue;
  }

  /** Such lines exist: the lines Int32.ToString writes for Int32.MinValue, Int32.MaxValue and 5. */
  lemma CounterexampleLines()
    ensures ColumnInt(ToString(MinValue), 0) == Ok(MinValue)
    ensures ColumnInt(ToString(MaxValue), 0) == Ok(MaxValue)
    ensures ColumnInt(ToString(5), 0) == Ok(5)
  {
    NumberIsOneCell(MinValue);
    NumberIsOneCell(MaxValue);
    NumberIsOneCell(5);
  }

  // ------------------------------------------------------------ the entries

  /** The five aggregate functions ParseSimpleAggregateFunctions computes. */
  predicate IsKnownFunction(f: string) {
    f == "count" || f == "sum" || f == "min" || f == "max" || f == "avg"
  }

  /**
   * One aggregate's entry: count is the number of data lines; sum, min and max read the
   * aggregate's column; avg is Math.Round(sum / count, 2) as text, given by formatAverage.
   * Another function name adds nothing.
   */
  function AggregateEntry(a: AggregateFunction, header: seq<string>, lines: seq<string>,
                          formatAverage: (int, int) -> string): (r: Result<Option<(string, Value)>>)
    ensures r.Ok? && r.value.Some? ==> r.value.value.0 == Label(a)
    ensures r == Ok(None) <==> !IsKnownFunction(a.functionName)
  {
    var index := GetIndexOfField(header, a.field);
    var f := a.functionName;
    if f == "count" then Ok(Some((Label(a), Text(ToString(|lines|)))))
    else if f == "sum" then
      var s :- ColumnSum(lines, index);
      Ok(Some((Label(a), Text(ToString(s)))))
    else if f == "min" then
      var m :- ColumnMin(lines, index);
      Ok(Some((Label(a), Text(ToString(m)))))
    else if f == "max" then
      var m :- ColumnMax(lines, index);
      Ok(Some((Label(a), Text(ToString(m)))))
    else if f == "avg" then
      var s :- ColumnSum(lines, index);
      Ok(Some((Label(a), Text(formatAverage(s, |lines|)))))
    else Ok(None)
  }

  /** The entries of the aggregates in turn; a repeated key or an unreadable column raises. */
  function SimpleAggregates(aggregates: seq<AggregateFunction>, header: seq<string>, lines: seq<string>,
                            formatAverage: (int, int) -> string): (r: Result<seq<(string, Value)>>)
    ensures r.Ok? ==> Distinct(Keys(r.value))
  {
    if |aggregates| == 0 then Ok([])
    else
      var es :- SimpleAggregates(aggregates[..|aggregates| - 1], header, lines, formatAverage);
      var e :- AggregateEntry(aggregates[|aggregates| - 1], header, lines, formatAverage);
      match e
      case None => Ok(es)
      case Some(entry) =>
        AddEntryDistinct(es, entry.0, entry.1);
        AddEntry(es, entry.0, entry.1)
  }

  /** The labels of the aggregates ParseSimpleAggregateFunctions computes, in order. */
  function KnownLabels(aggregates: seq<AggregateFunction>): seq<string>
  {
    if |aggregates| == 0 then []
    else
      var a := aggregates[|aggregates| - 1];
      KnownLabels(aggregates[..|aggregates| - 1]) + (if IsKnownFunction(a.functionName) then [Label(a)] else [])
  }

  /** ParseSimpleAggregateFunctions on the file's lines, header first. */
  function SimpleAggregatesOf(file: seq<string>, aggregates: seq<AggregateFunction>,
                              formatAverage: (int, int) -> string): (r: Result<DataSet>)
    ensures |file| == 0 ==> r == Throw(NullReference)
  {
    var header :- HeaderOf(file);
    var es :- SimpleAggregates(aggregates, header, file[1..], formatAverage);
    Ok(Grouped(es))
  }

  /** The keys of the entries are the labels of the known aggregates, in select-list order. */
  lemma {:induction false} SimpleAggregatesKeys(aggregates: seq<AggregateFunction>, header: seq<string>,
                                                lines: seq<string>, formatAverage: (int, int) -> string)
    requires SimpleAggregates(aggregates, header, lines, formatAverage).Ok?
    ensures Keys(SimpleAggregates(aggregates, header, lines, formatAverage).value) == KnownLabels(aggregates)
  {
    if |aggregates| > 0 {
      var init := aggregates[..|aggregates| - 1];
      SimpleAggregatesKeys(init, header, lines, formatAverage);
      var es := SimpleAggregates(init, header, lines, formatAverage).value;
      var e := AggregateEntry(aggregates[|aggregates| - 1], header, lines, formatAverage).value;
      if e.Some? {
        assert Keys(es + [e.value]) == Keys(es) + [e.value.0];
      }
    }
  }

  /**
   * An aggregate repeating an earlier one of the same function and field raises DuplicateKey
   * when its turn comes, if the aggregates before it were added and its own statistic can be
   * computed.
   */
  lemma SimpleAggregatesRepeated(aggregates: seq<AggregateFunction>, header: seq<string>, lines: seq<string>,
                                 formatAverage: (int, int) -> string, i: int)
    requires 0 <= i < |aggregates| - 1 && aggregates[i] == aggregates[|aggregates| - 1]
    requires IsKnownFunction(aggregates[i].functionName)
    requires SimpleAggregates(aggregates[..|aggregates| - 1], header, lines, formatAverage).Ok?
    requires AggregateEntry(aggregates[i], header, lines, formatAverage).Ok?
    ensures SimpleAggregates(aggregates, header, lines, formatAverage) == Throw(DuplicateKey)
  {
    var j := |aggregates| - 1;
    RepeatedLabelPresent(aggregates, header, lines, formatAverage, i, j);
  }

  /** The label of an aggregate repeated at j is already a key before j. */
  lemma RepeatedLabelPresent(aggregates: seq<AggregateFunction>, header: seq<string>, lines: seq<string>,
                             formatAverage: (int, int) -> string, i: int, j: int)
    requires 0 <= i < j < |aggregates| && aggregates[i] == aggregates[j]
    requires IsKnownFunction(aggregates[j].functionName)
    requires SimpleAggregates(aggregates[..j], header, lines, formatAverage).Ok?
    ensures Label(aggregates[j]) in Keys(SimpleAggregates(aggregates[..j], header, lines, formatAverage).value)
  {
    SimpleAggregatesKeys(aggregates[..j], header, lines, formatAverage);
    assert aggregates[..j][i] == aggregates[j];
    KnownLabelsHas(aggregates[..j], i);
  }

  /** A known aggregate's label is among the known labels. */
  lemma {:induction false} KnownLabelsHas(aggregates: seq<AggregateFunction>, i: int)
    requires 0 <= i < |aggregates| && IsKnownFunction(aggregates[i].functionName)
    ensures Label(aggregates[i]) in KnownLabels(aggregates)
  {
    var n := |aggregates|;
    if i < n - 1 {
      assert aggregates[..n - 1][i] == aggregates[i];
      KnownLabelsHas(aggregates[..n - 1], i);
    }
  }

  /** Once a prefix of the aggregates raises, the later aggregates do not run. */
  lemma {:induction false} SimpleAggregatesStops(aggregates: seq<AggregateFunction>, header: seq<string>,
                                                 lines: seq<string>, formatAverage: (int, int) -> string, m: nat, e: Exception)
    requires m <= |aggregates|
    requires SimpleAggregates(aggregates[..m], header, lines, formatAverage) == Throw(e)
    ensures SimpleAggregates(aggregates, header, lines, formatAverage) == Throw(e)
  {
    var n := |aggregates|;
    if m < n {
      assert aggregates[..n - 1][..m] == aggregates[..m];
      SimpleAggregatesStops(aggregates[..n - 1], header, lines, formatAverage, m, e);
    } else {
      assert aggregates[..m] == aggregates;
    }
  }

  /**
   * On a readable column with no partial sum out of range, sum, min, max and avg state the sum,
   * the least and the greatest value; count is the number of lines.
   */
  lemma AggregateEntryMeaning(a: AggregateFunction, header: seq<string>, lines: seq<string>,
                              formatAverage: (int, int) -> string, vs: seq<int>)
    requires ColumnInts(lines, GetIndexOfField(header, a.field)) == Ok(vs)
    requires PartialSumsInRange(vs)
    ensures var r := AggregateEntry(a, header, lines, formatAverage);
            var f := a.functionName;
            && (f == "count" ==> r == Ok(Some((Label(a), Text(ToString(|lines|))))))
            && (f == "sum" ==> r == Ok(Some((Label(a), Text(ToString(SeqSum(vs)))))))
            && (f == "min" && |lines| > 0 ==> r == Ok(Some((Label(a), Text(ToString(SeqMin(vs)))))))
            && (f == "max" && |lines| > 0 ==> r == Ok(Some((Label(a), Text(ToString(SeqMax(vs)))))))
            && (f == "avg" ==> r == Ok(Some((Label(a), Text(formatAverage(SeqSum(vs), |lines|))))))
  {
    ColumnSumMeaning(lines, GetIndexOfField(header, a.field), vs);
  }

  /**
   * The min and max entries against FindMinValue and FindMaxValue as written: the same exception
   * on an unreadable column, and the same value when the column never holds the sentinel.
   */
  lemma AggregateEntryAsWritten(a: AggregateFunction, header: seq<string>, lines: seq<string>,
                                formatAverage: (int, int) -> string)
    ensures var index := GetIndexOfField(header, a.field);
            var col := ColumnInts(lines, index);
            var r := AggregateEntry(a, header, lines, formatAverage);
            var f := a.functionName;
            var mn := MinWithoutWhere(lines, index);
            var mx := MaxWithoutWhere(lines, index);
            && (f == "min" && col.Throw? ==> mn.Throw? && r == Throw(mn.error))
            && (f == "max" && col.Throw? ==> mx.Throw? && r == Throw(mx.error))
            && (f == "min" && col.Ok? && MinValue !in col.value ==>
                  mn.Ok? && r == Ok(Some((Label(a), Text(ToString(mn.value))))))
            && (f == "max" && col.Ok? && MaxValue !in col.value ==>
                  mx.Ok? && r == Ok(Some((Label(a), Text(ToString(mx.value))))))
  {
    var index := GetIndexOfField(header, a.field);
    MinWithoutWhereErrors(lines, index);
    MaxWithoutWhereErrors(lines, index);
    var col := ColumnInts(lines, index);
    if col.Ok? {
      if MinValue !in col.value {
        MinWithoutWhereAgrees(lines, index, col.value);
      }
      if MaxValue !in col.value {
        MaxWithoutWhereAgrees(lines, index, col.value);
      }
    }
  }

  /** Once a line's cell does not read, the later lines are not read: the column raises the same exception. */
  lemma {:induction false} ColumnIntsStops(lines: seq<string>, m: nat, index: int, e: Exception)
    requires m <= |lines|
    requires ColumnInts(lines[..m], index) == Throw(e)
    ensures ColumnInts(lines, index) == Throw(e)
  {
    if m < |lines| {
      assert lines[..|lines| - 1][..m] == lines[..m];
      ColumnIntsStops(lines[..|lines| - 1], m, index, e);
    } else {
      assert lines[..m] == lines;
    }
  }

  /** Reading one more line's cell extends the column by its value. */
  lemma ColumnIntsNext(lines: seq<string>, i: nat, index: int, vs: seq<int>, v: int)
    requires i < |lines|
    requires ColumnInts(lines[..i], index) == Ok(vs) && ColumnInt(lines[i], index) == Ok(v)
    ensures ColumnInts(lines[..i + 1], index) == Ok(vs + [v])
    ensures |vs| > 0 ==> SeqMin(vs + [v]) == (if SeqMin(vs) < v then SeqMin(vs) else v)
    ensures |vs| > 0 ==> SeqMax(vs + [v]) == (if SeqMax(vs) > v then SeqMax(vs) else v)
  {
    assert lines[..i + 1][..i] == lines[..i];
    assert (vs + [v])[..|vs|] == vs;
  }

  /** A line whose cell does not read, after lines that do, makes the column raise its exception. */
  lemma ColumnIntsLineStops(lines: seq<string>, i: nat, index: int, e: Exception)
    requires i < |lines|
    requires ColumnInts(lines[..i], index).Ok? && ColumnInt(lines[i], index) == Throw(e)
    ensures ColumnInts(lines, index) == Throw(e)
  {
    assert lines[..i + 1][..i] == lines[..i];
    ColumnIntsStops(lines, i + 1, index, e);
  }
}
