/**
 * The aggregates of the query processor.  Grouped: each data line adds its aggregated value
 * under its group value (AddValue), the dictionary is reordered by key, and one [key,
 * statistic] entry per key goes into the grouped data set (ParseGroupByAggregateFunctions,
 * GetGroupedValue).  Ungrouped: one entry per aggregate, labelled function(field), computed
 * over the whole column (ParseSimpleAggregateFunctions and the Find* helpers).
 */
module Aggregation {
  import opened Wrappers
  import opened Text
  import opened Int32
  import opened AggregateFunctions
  import opened Sorting
  import opened Grouping
  import opened Projection
  import opened DataSets

  // ---------------------------------------------------------------- grouped

  /** The statistic GetGroupedValue writes for a function name: "" for a name outside the five. */
  function Statistic(f: string, acc: Acc, formatAverage: (int, int) -> string): string
  {
    if f == "sum" then ToString(acc.sum)
    else if f == "count" then ToString(acc.count)
    else if f == "min" then ToString(acc.min)
    else if f == "max" then ToString(acc.max)
    else if f == "avg" then formatAverage(acc.sum, acc.count)
    else ""
  }

  /**
   * GetGroupedValue(key, totals, queryParameter): [key, statistic of the first aggregate's
   * function]; with no aggregate the list index raises.  avg is Math.Round(sum / count, 2) as
   * text, given by formatAverage.
   */
  function GetGroupedValue(key: string, acc: Acc, aggregates: seq<AggregateFunction>,
                           formatAverage: (int, int) -> string): (r: Result<seq<string>>)
    ensures r.Throw? <==> |aggregates| == 0
    ensures r.Throw? ==> r.error == IndexOutOfRange
    ensures r.Ok? ==> |r.value| == 2 && r.value[0] == key
  {
    if |aggregates| == 0 then Throw(IndexOutOfRange)
    else Ok([key, Statistic(aggregates[0].functionName, acc, formatAverage)])
  }

  /**
   * The statistic of the totals of a non-empty list of Int32 values reads back as the wrapped
   * sum, the number, the least or the greatest of the values.
   */
  lemma StatisticOfSummary(vs: seq<int>, f: string, formatAverage: (int, int) -> string)
    requires 0 < |vs| <= MaxValue
    requires forall k :: 0 <= k < |vs| ==> InRange(vs[k])
    ensures var stat := Statistic(f, Summary(vs), formatAverage);
            && (f == "sum" ==> Parse(stat) == Ok(Wrap(SeqSum(vs))))
            && (f == "count" ==> Parse(stat) == Ok(|vs|))
            && (f == "min" ==> Parse(stat) == Ok(SeqMin(vs)))
            && (f == "max" ==> Parse(stat) == Ok(SeqMax(vs)))
            && (f == "avg" ==> stat == formatAverage(Wrap(SeqSum(vs)), |vs|))
            && (f != "sum" && f != "count" && f != "min" && f != "max" && f != "avg" ==> stat == "")
  {
    if f == "sum" {
      ParseToString(Wrap(SeqSum(vs)));
    } else if f == "count" {
      ParseToString(|vs|);
    } else if f == "min" {
      ParseToString(SeqMin(vs));
    } else if f == "max" {
      ParseToString(SeqMax(vs));
    }
  }

  /**
   * For a key of the totals built from in-range values, the entry GetGroupedValue writes is
   * [key, statistic of the key's values].
   */
  lemma GroupedValueMeaning(pairs: seq<(string, int)>, key: string, aggregates: seq<AggregateFunction>,
                            formatAverage: (int, int) -> string)
    requires forall k :: 0 <= k < |pairs| ==> InRange(pairs[k].1)
    requires key in Accumulate(pairs) && |aggregates| > 0
    ensures var vs := ValuesFor(pairs, key);
            && |vs| > 0
            && GetGroupedValue(key, Accumulate(pairs)[key], aggregates, formatAverage)
               == Ok([key, Statistic(aggregates[0].functionName, Summary(vs), formatAverage)])
  {
    AccumulateMeaning(pairs, key);
  }

  /** A data line's group value (column gi) and aggregated value (column si, read with TryParse). */
  function LinePair(line: string, gi: int, si: int): Result<(string, int)>
  {
    var contents := Split(line, ',');
    var key :- CellAt(contents, gi);
    var value :- CellAt(contents, si);
    Ok((key, TryParse(value)))
  }

  /** The pairs of the data lines, in order; the first line with a missing column raises. */
  function LinePairs(lines: seq<string>, gi: int, si: int): (r: Result<seq<(string, int)>>)
    ensures r.Ok? ==> |r.value| == |lines| && forall k :: 0 <= k < |r.value| ==> InRange(r.value[k].1)
    ensures r.Throw? ==> r.error == IndexOutOfRange
  {
    if |lines| == 0 then Ok([])
    else
      var init :- LinePairs(lines[..|lines| - 1], gi, si);
      var p :- LinePair(lines[|lines| - 1], gi, si);
      Ok(init + [p])
  }

  /** The [key, statistic] entry of each key, in the order of keys. */
  function GroupedValues(t: Table, keys: seq<string>, f: string, formatAverage: (int, int) -> string): (es: seq<(string, Value)>)
    requires forall k :: k in keys ==> k in t.entries
    ensures |es| == |keys|
  {
    seq(|keys|, i requires 0 <= i < |keys| => (keys[i], Texts([keys[i], Statistic(f, t.entries[keys[i]], formatAverage)])))
  }

  /** Each key's [key, statistic] added to the grouped data set in order; a key already there raises. */
  function AddGroupedValues(grouped: seq<(string, Value)>, t: Table, keys: seq<string>,
                            aggregates: seq<AggregateFunction>, formatAverage: (int, int) -> string)
    : (r: Result<seq<(string, Value)>>)
    requires forall k :: k in keys ==> k in t.entries
    ensures r.Ok? ==> |r.value| == |grouped| + |keys| && r.value[..|grouped|] == grouped
    ensures r.Throw? && |aggregates| > 0 ==> r.error == DuplicateKey
  {
    if |keys| == 0 then Ok(grouped)
    else
      var k := keys[|keys| - 1];
      var g :- AddGroupedValues(grouped, t, keys[..|keys| - 1], aggregates, formatAverage);
      var v :- GetGroupedValue(k, t.entries[k], aggregates, formatAverage);
      AddEntry(g, k, Texts(v))
  }

  /** Keys that are new and distinct are all added, in order. */
  lemma {:induction false} AddGroupedValuesFresh(grouped: seq<(string, Value)>, t: Table, keys: seq<string>,
                                                 aggregates: seq<AggregateFunction>, formatAverage: (int, int) -> string)
    requires forall k :: k in keys ==> k in t.entries
    requires |aggregates| > 0 && Distinct(keys)
    requires forall k :: k in keys ==> k !in Keys(grouped)
    ensures AddGroupedValues(grouped, t, keys, aggregates, formatAverage)
            == Ok(grouped + GroupedValues(t, keys, aggregates[0].functionName, formatAverage))
  {
    var f := aggregates[0].functionName;
    if |keys| == 0 {
      assert grouped + GroupedValues(t, keys, f, formatAverage) == grouped;
    } else {
      var init := keys[..|keys| - 1];
      var k := keys[|keys| - 1];
      assert Distinct(init) by {
        forall i, j | 0 <= i < j < |init|
          ensures init[i] != init[j]
        {
          assert init[i] == keys[i] && init[j] == keys[j];
        }
      }
      AddGroupedValuesFresh(grouped, t, init, aggregates, formatAverage);
      var g := grouped + GroupedValues(t, init, f, formatAverage);
      assert k in keys && k !in Keys(grouped);
      assert k !in Keys(g) by {
        forall i | 0 <= i < |g|
          ensures g[i].0 != k
        {
          if i < |grouped| {
            assert g[i] == grouped[i];
            assert Keys(grouped)[i] == grouped[i].0;
          } else {
            var m := i - |grouped|;
            assert g[i].0 == init[m] == keys[m];
            assert m < |keys| - 1;
            assert keys[m] != keys[|keys| - 1];
          }
        }
      }
      var v := Texts([k, Statistic(f, t.entries[k], formatAverage)]);
      assert AddGroupedValues(grouped, t, keys, aggregates, formatAverage) == Ok(g + [(k, v)]);
      assert g + [(k, v)] == grouped + GroupedValues(t, keys, f, formatAverage);
    }
  }

  /** A key already in the data set makes the additions raise DuplicateKey. */
  lemma {:induction false} AddGroupedValuesDuplicate(grouped: seq<(string, Value)>, t: Table, keys: seq<string>,
                                                     aggregates: seq<AggregateFunction>,
                                                     formatAverage: (int, int) -> string, j: int)
    requires forall k :: k in keys ==> k in t.entries
    requires |aggregates| > 0 && 0 <= j < |keys| && keys[j] in Keys(grouped)
    ensures AddGroupedValues(grouped, t, keys, aggregates, formatAverage) == Throw(DuplicateKey)
  {
    var init := keys[..|keys| - 1];
    var k := keys[|keys| - 1];
    if j < |keys| - 1 {
      assert init[j] == keys[j];
      AddGroupedValuesDuplicate(grouped, t, init, aggregates, formatAverage, j);
    } else {
      var r := AddGroupedValues(grouped, t, init, aggregates, formatAverage);
      if r.Ok? {
        assert Keys(r.value)[..|grouped|] == Keys(grouped);
        assert k in Keys(r.value);
      }
    }
  }

  /** The dictionary and the grouped data set after some group fields. */
  datatype GroupByState = GroupByState(table: Table, grouped: seq<(string, Value)>)

  /** The index of the aggregated field: "*" reads column 0. */
  function SelectIndex(header: seq<string>, aggregates: seq<AggregateFunction>): int
    requires |aggregates| > 0
  {
    var selectField := aggregates[0].field;
    if selectField == "*" then 0 else GetIndexOfField(header, selectField)
  }

  /**
   * One group field: every data line is added to the dictionary kept from the earlier fields,
   * the dictionary is reordered by key, and each of its keys is added to the data set.
   */
  function GroupFieldStep(s: GroupByState, groupField: string, header: seq<string>, lines: seq<string>,
                          aggregates: seq<AggregateFunction>, formatAverage: (int, int) -> string)
    : (r: Result<GroupByState>)
    requires TableValid(s.table)
    ensures r.Ok? ==> TableValid(r.value.table)
  {
    if |aggregates| == 0 then Throw(IndexOutOfRange)
    else
      var gi := GetIndexOfField(header, groupField);
      var pairs :- LinePairs(lines, gi, SelectIndex(header, aggregates));
      AddAllValid(s.table, pairs);
      var added := AddAll(s.table, pairs);
      SortedByKeyValid(added);
      var t := SortedByKey(added);
      var g :- AddGroupedValues(s.grouped, t, t.keys, aggregates, formatAverage);
      Ok(GroupByState(t, g))
  }

  /** The first n group fields processed in turn, from an empty dictionary and data set. */
  function GroupByRun(header: seq<string>, lines: seq<string>, groupFields: seq<string>, n: nat,
                      aggregates: seq<AggregateFunction>, formatAverage: (int, int) -> string)
    : (r: Result<GroupByState>)
    requires n <= |groupFields|
    ensures r.Ok? ==> TableValid(r.value.table)
  {
    if n == 0 then Ok(GroupByState(EmptyTable, []))
    else
      var s :- GroupByRun(header, lines, groupFields, n - 1, aggregates, formatAverage);
      GroupFieldStep(s, groupFields[n - 1], header, lines, aggregates, formatAverage)
  }

  /** The step after n fields: the run goes on with it, or ends with its exception. */
  lemma GroupByRunNext(header: seq<string>, lines: seq<string>, groupFields: seq<string>, n: nat,
                       aggregates: seq<AggregateFunction>, formatAverage: (int, int) -> string,
                       s: GroupByState, next: Result<GroupByState>)
    requires n < |groupFields| && TableValid(s.table)
    requires GroupByRun(header, lines, groupFields, n, aggregates, formatAverage) == Ok(s)
    requires GroupFieldStep(s, groupFields[n], header, lines, aggregates, formatAverage) == next
    ensures next.Ok? ==> GroupByRun(header, lines, groupFields, n + 1, aggregates, formatAverage) == next
    ensures next.Throw? ==> GroupByRun(header, lines, groupFields, |groupFields|, aggregates, formatAverage) == Throw(next.error)
  {
    if next.Throw? {
      GroupByRunStops(header, lines, groupFields, n + 1, aggregates, formatAverage, next.error);
    }
  }

  /** ParseGroupByAggregateFunctions on the file's lines, header first. */
  function GroupByAggregates(file: seq<string>, groupFields: seq<string>, aggregates: seq<AggregateFunction>,
                             formatAverage: (int, int) -> string): Result<DataSet>
  {
    var header :- HeaderOf(file);
    var s :- GroupByRun(header, file[1..], groupFields, |groupFields|, aggregates, formatAverage);
    Ok(Grouped(s.grouped))
  }

  /**
   * With one group field, the data set holds one entry per distinct group value, in ascending
   * key order, each the [key, statistic] of that value's totals.
   */
  lemma GroupBySingleField(header: seq<string>, lines: seq<string>, groupField: string,
                           aggregates: seq<AggregateFunction>, formatAverage: (int, int) -> string,
                           pairs: seq<(string, int)>)
    requires |aggregates| > 0
    requires LinePairs(lines, GetIndexOfField(header, groupField), SelectIndex(header, aggregates)) == Ok(pairs)
    ensures var r := GroupByRun(header, lines, [groupField], 1, aggregates, formatAverage);
            var f := aggregates[0].functionName;
            && r.Ok?
            && Sorted(Keys(r.value.grouped), StringLeq)
            && Distinct(Keys(r.value.grouped))
            && (forall k :: k in Keys(r.value.grouped) <==> k in Accumulate(pairs))
            && forall i :: 0 <= i < |r.value.grouped| ==>
                 var k := r.value.grouped[i].0;
                 k in Accumulate(pairs) && r.value.grouped[i].1 == Texts([k, Statistic(f, Accumulate(pairs)[k], formatAverage)])
  {
    var f := aggregates[0].functionName;
    var added := AddAll(EmptyTable, pairs);
    AddAllValid(EmptyTable, pairs);
    AddAllAccumulate(pairs);
    SortedByKeyValid(added);
    var t := SortedByKey(added);
    assert GroupByRun(header, lines, [groupField], 0, aggregates, formatAverage) == Ok(GroupByState(EmptyTable, []));
    AddGroupedValuesFresh([], t, t.keys, aggregates, formatAverage);
    var g := GroupedValues(t, t.keys, f, formatAverage);
    assert GroupFieldStep(GroupByState(EmptyTable, []), groupField, header, lines, aggregates, formatAverage)
           == Ok(GroupByState(t, [] + g));
    assert [] + g == g;
    assert Keys(g) == t.keys;
  }

  /** Once a group field raises, the later fields do not run: the same exception comes out. */
  lemma {:induction false} GroupByRunStops(header: seq<string>, lines: seq<string>, groupFields: seq<string>,
                                           m: nat, aggregates: seq<AggregateFunction>,
                                           formatAverage: (int, int) -> string, e: Exception)
    requires m <= |groupFields|
    requires GroupByRun(header, lines, groupFields, m, aggregates, formatAverage) == Throw(e)
    ensures GroupByRun(header, lines, groupFields, |groupFields|, aggregates, formatAverage) == Throw(e)
    decreases |groupFields| - m
  {
    if m < |groupFields| {
      GroupByRunThrows(header, lines, groupFields, m, aggregates, formatAverage, e);
      GroupByRunStops(header, lines, groupFields, m + 1, aggregates, formatAverage, e);
    } else {
      assert m == |groupFields|;
    }
  }

  /** A run whose first n fields raised raises the same exception after n + 1. */
  lemma GroupByRunThrows(header: seq<string>, lines: seq<string>, groupFields: seq<string>,
                         n: nat, aggregates: seq<AggregateFunction>,
                         formatAverage: (int, int) -> string, e: Exception)
    requires n < |groupFields|
    requires GroupByRun(header, lines, groupFields, n, aggregates, formatAverage) == Throw(e)
    ensures GroupByRun(header, lines, groupFields, n + 1, aggregates, formatAverage) == Throw(e)
  {
  }

  /** After the first group field, every group value of its lines is a key of the data set and of the dictionary. */
  lemma GroupByFirstField(header: seq<string>, lines: seq<string>, groupFields: seq<string>,
                          aggregates: seq<AggregateFunction>, formatAverage: (int, int) -> string,
                          pairs: seq<(string, int)>)
    requires |groupFields| >= 1 && |aggregates| > 0
    requires LinePairs(lines, GetIndexOfField(header, groupFields[0]), SelectIndex(header, aggregates)) == Ok(pairs)
    ensures var r := GroupByRun(header, lines, groupFields, 1, aggregates, formatAverage);
            && r.Ok?
            && forall k :: 0 <= k < |pairs| ==> pairs[k].0 in Keys(r.value.grouped) && pairs[k].0 in r.value.table.entries
  {
    GroupBySingleField(header, lines, groupFields[0], aggregates, formatAverage, pairs);
    var s1 := GroupByRun(header, lines, [groupFields[0]], 1, aggregates, formatAverage).value;
    assert GroupByRun(header, lines, groupFields, 1, aggregates, formatAverage) == Ok(s1) by {
      assert GroupByRun(header, lines, groupFields, 0, aggregates, formatAverage)
             == GroupByRun(header, lines, [groupFields[0]], 0, aggregates, formatAverage);
    }
    AddAllKeys(EmptyTable, pairs);
    AddAllAccumulate(pairs);
    var t := SortedByKey(AddAll(EmptyTable, pairs));
    assert s1.table == t;
  }

  /** A group field whose lines are all read raises DuplicateKey when the data set already holds one of the dictionary's keys. */
  lemma GroupFieldStepDuplicate(s: GroupByState, groupField: string, header: seq<string>, lines: seq<string>,
                                aggregates: seq<AggregateFunction>, formatAverage: (int, int) -> string, key: string)
    requires TableValid(s.table) && |aggregates| > 0
    requires LinePairs(lines, GetIndexOfField(header, groupField), SelectIndex(header, aggregates)).Ok?
    requires key in s.table.entries && key in Keys(s.grouped)
    ensures GroupFieldStep(s, groupField, header, lines, aggregates, formatAverage) == Throw(DuplicateKey)
  {
    var pairs := LinePairs(lines, GetIndexOfField(header, groupField), SelectIndex(header, aggregates)).value;
    AddAllKeys(s.table, pairs);
    var added := AddAll(s.table, pairs);
    AddAllValid(s.table, pairs);
    SortedByKeyValid(added);
    var t := SortedByKey(added);
    assert key in t.keys;
    var j :| 0 <= j < |t.keys| && t.keys[j] == key;
    AddGroupedValuesDuplicate(s.grouped, t, t.keys, aggregates, formatAverage, j);
  }

  /**
   * The dictionary is not emptied between group fields, so with a second group field and at
   * least one data line the keys of the first field are added to the data set again, and
   * Dictionary.Add raises.
   */
  lemma GroupByRepeatedKeys(header: seq<string>, lines: seq<string>, groupFields: seq<string>,
                            aggregates: seq<AggregateFunction>, formatAverage: (int, int) -> string)
    requires |groupFields| >= 2 && |aggregates| > 0 && |lines| > 0
    requires LinePairs(lines, GetIndexOfField(header, groupFields[0]), SelectIndex(header, aggregates)).Ok?
    requires LinePairs(lines, GetIndexOfField(header, groupFields[1]), SelectIndex(header, aggregates)).Ok?
    ensures GroupByRun(header, lines, groupFields, 2, aggregates, formatAverage) == Throw(DuplicateKey)
  {
    var pairs := LinePairs(lines, GetIndexOfField(header, groupFields[0]), SelectIndex(header, aggregates)).value;
    GroupByFirstField(header, lines, groupFields, aggregates, formatAverage, pairs);
    var s1 := GroupByRun(header, lines, groupFields, 1, aggregates, formatAverage).value;
    GroupFieldStepDuplicate(s1, groupFields[1], header, lines, aggregates, formatAverage, pairs[0].0);
  }

  /**
   * ParseGroupByAggregateFunctions with an aggregate, at least one data line, and two or more
   * group fields, where every data line holds the first two group columns and the aggregate's
   * column, raises DuplicateKey.
   */
  lemma GroupByAggregatesRepeatedKeys(file: seq<string>, groupFields: seq<string>,
                                      aggregates: seq<AggregateFunction>, formatAverage: (int, int) -> string)
    requires |groupFields| >= 2 && |aggregates| > 0 && |file| > 1
    requires var header := HeaderOf(file).value;
             && LinePairs(file[1..], GetIndexOfField(header, groupFields[0]), SelectIndex(header, aggregates)).Ok?
             && LinePairs(file[1..], GetIndexOfField(header, groupFields[1]), SelectIndex(header, aggregates)).Ok?
    ensures GroupByAggregates(file, groupFields, aggregates, formatAverage) == Throw(DuplicateKey)
  {
    var header := HeaderOf(file).value;
    GroupByRepeatedKeys(header, file[1..], groupFields, aggregates, formatAverage);
    GroupByRunStops(header, file[1..], groupFields, 2, aggregates, formatAverage, DuplicateKey);
  }

  /** Once a line lacks a column, the later lines are not read: the scan raises. */
  lemma {:induction false} LinePairsStops(lines: seq<string>, m: nat, gi: int, si: int)
    requires m <= |lines|
    requires LinePairs(lines[..m], gi, si).Throw?
    ensures LinePairs(lines, gi, si) == Throw(IndexOutOfRange)
  {
    if m < |lines| {
      assert lines[..|lines| - 1][..m] == lines[..m];
      LinePairsStops(lines[..|lines| - 1], m, gi, si);
    } else {
      assert lines[..m] == lines;
    }
  }

  /** Once a key raises, the later keys are not added: the additions raise the same exception. */
  lemma {:induction false} AddGroupedValuesStops(grouped: seq<(string, Value)>, t: Table, keys: seq<string>, m: nat,
                                                 aggregates: seq<AggregateFunction>, formatAverage: (int, int) -> string,
                                                 e: Exception)
    requires forall k :: k in keys ==> k in t.entries
    requires m <= |keys|
    requires AddGroupedValues(grouped, t, keys[..m], aggregates, formatAverage) == Throw(e)
    ensures AddGroupedValues(grouped, t, keys, aggregates, formatAverage) == Throw(e)
  {
    if m < |keys| {
      assert keys[..|keys| - 1][..m] == keys[..m];
      AddGroupedValuesStops(grouped, t, keys[..|keys| - 1], m, aggregates, formatAverage, e);
    } else {
      assert keys[..m] == keys;
    }
  }

  /** One more line with both columns extends the pairs by its pair. */
  lemma LinePairsNext(lines: seq<string>, j: nat, gi: int, si: int, pairs: seq<(string, int)>)
    requires j < |lines| && LinePairs(lines[..j], gi, si) == Ok(pairs) && LinePair(lines[j], gi, si).Ok?
    ensures LinePairs(lines[..j + 1], gi, si) == Ok(pairs + [LinePair(lines[j], gi, si).value])
  {
    assert lines[..j + 1][..j] == lines[..j];
  }

  /** A line without one of the columns, after lines that have both, makes the scan raise. */
  lemma LinePairsLineStops(lines: seq<string>, j: nat, gi: int, si: int)
    requires j < |lines| && LinePairs(lines[..j], gi, si).Ok? && LinePair(lines[j], gi, si).Throw?
    ensures LinePairs(lines, gi, si) == Throw(IndexOutOfRange)
  {
    assert lines[..j + 1][..j] == lines[..j];
    LinePairsStops(lines, j + 1, gi, si);
  }

  /** One more key: its [key, statistic] added to the data set built so far. */
  lemma AddGroupedValuesNext(grouped: seq<(string, Value)>, t: Table, keys: seq<string>, k: nat,
                             aggregates: seq<AggregateFunction>, formatAverage: (int, int) -> string,
                             g: seq<(string, Value)>)
    requires forall x :: x in keys ==> x in t.entries
    requires k < |keys| && AddGroupedValues(grouped, t, keys[..k], aggregates, formatAverage) == Ok(g)
    ensures AddGroupedValues(grouped, t, keys[..k + 1], aggregates, formatAverage)
            == (var v :- GetGroupedValue(keys[k], t.entries[keys[k]], aggregates, formatAverage);
                AddEntry(g, keys[k], Texts(v)))
  {
    assert keys[..k + 1][..k] == keys[..k];
  }
}
