# SQL over a CSV file: a verified model of the query engine

This project models the core of a small C# engine that answers SQL-like queries over a CSV file
of IPL cricket matches (`select ... from file.csv where ... group by ... order by ...`), and
proves properties of that model in Dafny.

The model follows the program's own structure, one module per part:

- **Value types.** `Restrictions` holds the restriction triple (name, value, operator).
  `AggregateFunctions` holds the (field, function) pair. Both are datatypes with their getters and
  their `Equals`. `QueryParameters` holds the mutable `QueryParameter` object and a `Plan`
  snapshot of the clauses the parser writes.
- **Query text.** `QueryClauses` states, as functions of the query text, what each clause
  extractor computes, with all of its quirks:
  - single-space tokens;
  - .NET `Split(char)`, which keeps empty pieces, and `Split(string)`;
  - `IndexOf(...) > 1` guards;
  - the regex that reads an aggregate's field.

  Lemmas then say what those functions give on well-formed queries.
- **Parser.** `QueryParsers` is the `QueryParser` class. `ParseQuery` updates the one
  `QueryParameter` it holds, according to a numeric priority. Every `Get*` helper is an
  imperative loop (index loops, `StringBuilder`s, arrays trimmed in place), each proved to compute
  the matching `QueryClauses` function.
- **Evaluation engine.** These modules cover the generic parts of `CsvQueryProcessor`:
  - `Projection`: header lookup and `GetSelectedValues`;
  - `Filtering`: `FilterContent` and the condition-group fold of `FilterResult`;
  - `Grouping`: the `(sum, min, max, count)` dictionary that `AddValue` updates in place;
  - `Aggregation`: `GetGroupedValue` and the group-by loop;
  - `SimpleAggregation`: the ungrouped count, sum, min, max and avg;
  - `Sorting` and `Ipl`: the `OrderBy`/`ThenBy` chain of `sortData` over the 18-column match
    record;
  - `QueryResults`: what each branch of `GetDataRow` returns;
  - `CsvQueryProcessors`: the processor class. Its state is the file's lines, the header read last,
    the lines the filter has kept (never cleared) and the reader's position.
- **Dispatcher.** `Queries` is `Query.ExecuteQuery`. It parses with priorities 3, 2, 1, 4 (only
  without aggregates) and 5, opens the file, picks one query type by the dispatch chain, and
  calls `GetDataRow` once.

Exceptions the C# code raises are modelled as `Result` values (`Throw(IndexOutOfRange)`,
`Throw(NullReference)`, `Throw(DuplicateKey)`, ...). The evaluation order of the source decides
which exception comes out, and the `...Stops` lemmas prove that nothing after the first
exception runs.

Several consequences of the code as written are proved about the whole pipeline:
- `ExecuteQuery` never parses an order-by clause, so a query with fields always takes the legacy
  branch and never reaches `GetQueryWithOrderBy` (`ExecuteFieldsNeverOrdered`).
- No code fills in condition groups, so a query of the NOT type keeps every data line
  (`ExecuteNotKeepsEveryLine`).
- The group-by dictionary is not cleared between group fields. So with an aggregate, at least one
  data line, and every data line holding the first two group columns and the aggregate's column,
  two or more group fields make `Dictionary.Add` raise DuplicateKey
  (`GroupByAggregatesRepeatedKeys`). With no data line nothing is added and nothing raises; a line
  missing one of those columns raises IndexOutOfRange first.

## Model

Source paths are relative to the repository root; `.../DbEngine` stands for
`assignment-solution-step6/assignment-solution-step6/DbEngine`, written out in full in each row.

| member | source | states |
|---|---|---|
| Restrictions.Restriction.GetPropertyValue | assignment-solution-step6/assignment-solution-step6/DbEngine/query/parser/Restriction.cs:19-25 | the result is the value passed second to the constructor; the restriction is rebuilt from the name, the result and the condition |
| Restrictions.Restriction.GetCondition | assignment-solution-step6/assignment-solution-step6/DbEngine/query/parser/Restriction.cs:27-33 | the result is the operator passed third to the constructor |
| Restrictions.Restriction.GetPropertyName | assignment-solution-step6/assignment-solution-step6/DbEngine/reader/CsvQueryProcessor.cs:949 | the result is the column name passed first to the constructor, the one the filter looks up |
| Restrictions.Restriction.Equals | assignment-solution-step6/assignment-solution-step6/DbEngine/query/parser/Restriction.cs:35-39 | a null or non-Restriction argument raises NullReferenceException; otherwise the result is true exactly when all three parts are equal |
| Restrictions.EqualsIsEquivalence | assignment-solution-step6/assignment-solution-step6/DbEngine/query/parser/Restriction.cs:35-39 | Equals on restrictions is reflexive, symmetric and transitive |
| AggregateFunctions.AggregateFunction.GetField | assignment-solution-step6/assignment-solution-step6/DbEngine/query/parser/AggregateFunction.cs:22-28 | the result is the field passed first to the constructor |
| AggregateFunctions.AggregateFunction.GetFunction | assignment-solution-step6/assignment-solution-step6/DbEngine/query/parser/AggregateFunction.cs:30-36 | the result is the function name passed second to the constructor |
| AggregateFunctions.AggregateFunction.Equals | assignment-solution-step6/assignment-solution-step6/DbEngine/query/parser/AggregateFunction.cs:16-20 | a null or non-AggregateFunction argument raises NullReferenceException; otherwise the result is true exactly when field and function are equal |
| AggregateFunctions.EqualsIsEquivalence | assignment-solution-step6/assignment-solution-step6/DbEngine/query/parser/AggregateFunction.cs:16-20 | Equals on aggregate functions is reflexive, symmetric and transitive |
| QueryClauses.TokensOfWords | assignment-solution-step6/assignment-solution-step6/DbEngine/query/parser/QueryParser.cs:140 | splitting words typed with single spaces on ' ' gives the words back |
| QueryClauses.FileNameOfWords | assignment-solution-step6/assignment-solution-step6/DbEngine/query/parser/QueryParser.cs:407-421 | the file name of a single-spaced query is the word after the first word exactly equal to "from" |
| QueryClauses.FieldsOfWords | assignment-solution-step6/assignment-solution-step6/DbEngine/query/parser/QueryParser.cs:138-160 | a select list written as comma-separated names in token 1 is read back as exactly those names, in order |
| QueryClauses.RenderParses | assignment-solution-step6/assignment-solution-step6/DbEngine/query/parser/QueryParser.cs:330-333 | in function(field), the first '(' is at index \|function\| > 0, the prefix before it is the function and the regex group is the field |
| QueryClauses.AggregatesOfRendered | assignment-solution-step6/assignment-solution-step6/DbEngine/query/parser/QueryParser.cs:328-337 | pieces written as function(field) are read back as those aggregates, in order |
| QueryClauses.AggregatesOfPlainFields | assignment-solution-step6/assignment-solution-step6/DbEngine/query/parser/QueryParser.cs:330 | pieces without '(' give no aggregate |
| QueryClauses.AggregatesOfWords | assignment-solution-step6/assignment-solution-step6/DbEngine/query/parser/QueryParser.cs:308-340 | a select list of aggregates in token 1 is parsed back to exactly those aggregates |
| QueryClauses.RegexField | assignment-solution-step6/assignment-solution-step6/DbEngine/query/parser/QueryParser.cs:333 | the captured field never contains ')' |
| QueryClauses.OrPair | assignment-solution-step6/assignment-solution-step6/DbEngine/query/parser/QueryParser.cs:231-240 | a piece split on "or" gives exactly two restrictions, or an index error when a part has fewer than three words |
| QueryClauses.RestrictionsOf | assignment-solution-step6/assignment-solution-step6/DbEngine/query/parser/QueryParser.cs:228-245 | one restriction per piece plus at most one more (the single or-split); the only possible exception is an index error |
| QueryClauses.OnePerPiece | assignment-solution-step6/assignment-solution-step6/DbEngine/query/parser/QueryParser.cs:228-245 | pieces without "or" past index 1 give one restriction each: the k-th is Restriction(word 0, word 2, word 1) of the k-th piece split on ' '; the condition reads exactly when every piece has three words |
| QueryClauses.OrSplitNeedsAnd | assignment-solution-step6/assignment-solution-step6/DbEngine/query/parser/QueryParser.cs:204-245 | without "and" past index 1 in the where-text, there is exactly one restriction per condition piece |
| QueryClauses.SingleRestriction | assignment-solution-step6/assignment-solution-step6/DbEngine/query/parser/QueryParser.cs:242-243 | "name op value" gives the one restriction Restriction(name, value, op), with value second and op third |
| QueryClauses.TwoRestrictions | assignment-solution-step6/assignment-solution-step6/DbEngine/query/parser/QueryParser.cs:200-245 | "n1 o1 v1 and n2 o2 v2" gives [Restriction(n1, v1, o1), Restriction(n2, v2, o2)], in that order |
| QueryClauses.ConditionsOfAnd | assignment-solution-step6/assignment-solution-step6/DbEngine/query/parser/QueryParser.cs:204-211 | a condition "p and q" splits into the trimmed pieces p and q |
| QueryClauses.ComparisonWords | assignment-solution-step6/assignment-solution-step6/DbEngine/query/parser/QueryParser.cs:242 | "name op value" splits on ' ' into its three words |
| QueryClauses.KeepLogical | assignment-solution-step6/assignment-solution-step6/DbEngine/query/parser/QueryParser.cs:276-284 | only "and"/"or" words are kept, and no more than there are words |
| QueryClauses.KeepLogicalAll | assignment-solution-step6/assignment-solution-step6/DbEngine/query/parser/QueryParser.cs:276-284 | words that are all connectives are kept in full, in order |
| QueryClauses.TerminatedIsJoin | assignment-solution-step6/assignment-solution-step6/DbEngine/query/parser/QueryParser.cs:276-284 | the operator string built with a comma after each operator is the comma join of the operators and an empty last piece |
| QueryClauses.SplitTerminated | assignment-solution-step6/assignment-solution-step6/DbEngine/query/parser/QueryParser.cs:287-290 | splitting that string on ',' with empty entries removed gives the operators back |
| QueryClauses.LogicalOperatorsOfWords | assignment-solution-step6/assignment-solution-step6/DbEngine/query/parser/QueryParser.cs:259-293 | the operators of a where clause of connectives are those connectives, in order |
| QueryClauses.OrderByClause | assignment-solution-step6/assignment-solution-step6/DbEngine/query/parser/QueryParser.cs:349-366 | with one "order by" at index 1 or later, the columns are the trimmed comma pieces of all the text after it |
| QueryClauses.TrimmedColumns | assignment-solution-step6/assignment-solution-step6/DbEngine/query/parser/QueryParser.cs:358-363 | columns written with commas are read back trimmed, in order |
| QueryClauses.GroupByClause | assignment-solution-step6/assignment-solution-step6/DbEngine/query/parser/QueryParser.cs:375-398 | with one "group by" at index 1 or later, the columns come from the comma pieces of all the text after it |
| QueryClauses.GroupColumnBeforeOrderBy | assignment-solution-step6/assignment-solution-step6/DbEngine/query/parser/QueryParser.cs:387-394 | in "group by c order by o", the group column is c: the order-by part is cut off |
| QueryParsers.ParseStepFrame | assignment-solution-step6/assignment-solution-step6/DbEngine/query/parser/QueryParser.cs:20-59 | one call changes only the clauses its priority selects; a priority outside 1..10 changes nothing and raises nothing |
| QueryParsers.ParseStepIdempotent | assignment-solution-step6/assignment-solution-step6/DbEngine/query/parser/QueryParser.cs:20-59 | repeating a call with the same query and priority changes nothing more |
| QueryParsers.TrimInPlace | assignment-solution-step6/assignment-solution-step6/DbEngine/query/parser/QueryParser.cs:360-363 | the array now holds each old piece trimmed, at the same position |
| QueryParsers.CutGroupColumn | assignment-solution-step6/assignment-solution-step6/DbEngine/query/parser/QueryParser.cs:389-393 | the piece trimmed, cut to its first word when "order by" occurs past index 1 |
| QueryParsers.GroupColumnsInPlace | assignment-solution-step6/assignment-solution-step6/DbEngine/query/parser/QueryParser.cs:387-394 | the array now holds the group column of each old piece |
| QueryParsers.QueryParser.constructor | assignment-solution-step6/assignment-solution-step6/DbEngine/query/parser/QueryParser.cs:14-17 | a fresh QueryParameter with every clause empty |
| QueryParsers.QueryParser.ParseQuery | assignment-solution-step6/assignment-solution-step6/DbEngine/query/parser/QueryParser.cs:20-59 | the held parameter becomes the priority's parse step of the old clauses; the same object is returned each time; an exception leaves earlier assignments of the call in place |
| QueryParsers.QueryParser.GetFields | assignment-solution-step6/assignment-solution-step6/DbEngine/query/parser/QueryParser.cs:138-160 | token 1 split on ','; [""] when there are fewer than two tokens |
| QueryParsers.QueryParser.GetRestrictions | assignment-solution-step6/assignment-solution-step6/DbEngine/query/parser/QueryParser.cs:178-247 | none for at most five tokens; otherwise the restrictions of the trimmed where-text |
| QueryParsers.QueryParser.SplitOrCondition | assignment-solution-step6/assignment-solution-step6/DbEngine/query/parser/QueryParser.cs:231-240 | the two restrictions of the text before and (trimmed) after the first "or" |
| QueryParsers.QueryParser.WhereCondition | assignment-solution-step6/assignment-solution-step6/DbEngine/query/parser/QueryParser.cs:183-194 | every token from position 5 on followed by one space; "" for at most five tokens; the stop test on "group by"/"order by" never fires |
| QueryParsers.QueryParser.SplitConditions | assignment-solution-step6/assignment-solution-step6/DbEngine/query/parser/QueryParser.cs:204-221 | split on "and" and trimmed, else split on "or" untrimmed, else the whole text |
| QueryParsers.QueryParser.RestrictionsOfConditions | assignment-solution-step6/assignment-solution-step6/DbEngine/query/parser/QueryParser.cs:228-245 | the restrictions of the pieces, the first or-piece split in two |
| QueryParsers.QueryParser.GetLogicalOperators | assignment-solution-step6/assignment-solution-step6/DbEngine/query/parser/QueryParser.cs:259-293 | the "and"/"or" tokens after the first "where", in order; none raises ArgumentNullException |
| QueryParsers.QueryParser.LogicalOperatorText | assignment-solution-step6/assignment-solution-step6/DbEngine/query/parser/QueryParser.cs:267-285 | the operator string is the operators after "where", each followed by a comma |
| QueryParsers.QueryParser.GetAggregateFunctions | assignment-solution-step6/assignment-solution-step6/DbEngine/query/parser/QueryParser.cs:308-340 | the aggregates of token 1's comma pieces; a one-token query raises NullReferenceException |
| QueryParsers.QueryParser.AggregateList | assignment-solution-step6/assignment-solution-step6/DbEngine/query/parser/QueryParser.cs:328-337 | the aggregates of the pieces whose first '(' is past index 0, in order |
| QueryParsers.QueryParser.GetOrderByFields | assignment-solution-step6/assignment-solution-step6/DbEngine/query/parser/QueryParser.cs:349-366 | the trimmed comma pieces after "order by"; none raises ArgumentNullException |
| QueryParsers.QueryParser.GetGroupByFields | assignment-solution-step6/assignment-solution-step6/DbEngine/query/parser/QueryParser.cs:375-398 | none when "group by" is absent or at index 0; otherwise the group columns of the comma pieces after it |
| QueryParsers.QueryParser.GetFileName | assignment-solution-step6/assignment-solution-step6/DbEngine/query/parser/QueryParser.cs:407-421 | the token after the first "from"; "" without one; an index error when "from" is last |
| Sorting.SortBySorted | assignment-solution-step6/assignment-solution-step6/DbEngine/reader/CsvQueryProcessor.cs:462-521 | the sort returns a permutation of its input in order, for any total preorder |
| Sorting.SortByStable | assignment-solution-step6/assignment-solution-step6/DbEngine/reader/CsvQueryProcessor.cs:462-521 | elements that tie come out in their input order (OrderBy and ThenBy are stable) |
| Sorting.SortByIdempotent | assignment-solution-step6/assignment-solution-step6/DbEngine/reader/CsvQueryProcessor.cs:462-521 | sorting twice is sorting once |
| Sorting.SortByDistinct | assignment-solution-step6/assignment-solution-step6/DbEngine/reader/CsvQueryProcessor.cs:727 | reordering distinct dictionary keys keeps them distinct |
| Sorting.StringOrder | assignment-solution-step6/assignment-solution-step6/DbEngine/reader/CsvQueryProcessor.cs:727 | the string order used for keys is a total preorder |
| Sorting.StringLeqAntisymmetric | assignment-solution-step6/assignment-solution-step6/DbEngine/reader/CsvQueryProcessor.cs:727 | only equal strings tie |
| Grouping.WrapAdd | assignment-solution-step6/assignment-solution-step6/DbEngine/reader/CsvQueryProcessor.cs:777 | wrapping the unchecked Int32 sum after every addition is wrapping once at the end |
| Grouping.SummarySnoc | assignment-solution-step6/assignment-solution-step6/DbEngine/reader/CsvQueryProcessor.cs:777-780 | folding one more value into a key's totals gives the totals of the longer list |
| Grouping.AccumulateMeaning | assignment-solution-step6/assignment-solution-step6/DbEngine/reader/CsvQueryProcessor.cs:769-793 | a key is present exactly when some pair has it, and its totals are the wrapped sum, least, greatest and number of its values |
| Grouping.AccumulateWellFormed | assignment-solution-step6/assignment-solution-step6/DbEngine/reader/CsvQueryProcessor.cs:769-793 | every key has count at least 1 and min at most max |
| Grouping.AddPairValid | assignment-solution-step6/assignment-solution-step6/DbEngine/reader/CsvQueryProcessor.cs:769-793 | adding one value keeps the dictionary valid |
| Grouping.AddAllValid | assignment-solution-step6/assignment-solution-step6/DbEngine/reader/CsvQueryProcessor.cs:721-726 | adding the values of all lines keeps the dictionary valid |
| Grouping.AddAllKeys | assignment-solution-step6/assignment-solution-step6/DbEngine/reader/CsvQueryProcessor.cs:721-726 | no key is removed and every added key is present |
| Grouping.AddAllAccumulate | assignment-solution-step6/assignment-solution-step6/DbEngine/reader/CsvQueryProcessor.cs:721-726 | from an empty dictionary, the entries are the accumulated totals of the pairs |
| Grouping.SortedByKeyValid | assignment-solution-step6/assignment-solution-step6/DbEngine/reader/CsvQueryProcessor.cs:727 | reordering by key keeps the dictionary valid and the same keys, now in ascending order |
| Grouping.GroupTable.constructor | assignment-solution-step6/assignment-solution-step6/DbEngine/reader/CsvQueryProcessor.cs:715 | an empty, valid dictionary |
| Grouping.GroupTable.AddValue | assignment-solution-step6/assignment-solution-step6/DbEngine/reader/CsvQueryProcessor.cs:769-793 | the value read with TryParse (0 when not a number) starts a new key's totals or is folded into an existing key's; no other key changes; the count-at-least-1 and min-at-most-max invariant is kept |
| Grouping.GroupTable.OrderByKey | assignment-solution-step6/assignment-solution-step6/DbEngine/reader/CsvQueryProcessor.cs:727 | same entries, enumerated in ascending key order, still valid |
| Ipl.ParseCell | assignment-solution-step6/assignment-solution-step6/DbEngine/reader/CsvQueryProcessor.cs:549-569 | a converted column has the declared kind of its record property; failures are index, format or overflow errors |
| Ipl.ParseCells | assignment-solution-step6/assignment-solution-step6/DbEngine/reader/CsvQueryProcessor.cs:549-569 | the first n columns converted, each of its property's kind |
| Ipl.ParseRecord | assignment-solution-step6/assignment-solution-step6/DbEngine/reader/CsvQueryProcessor.cs:544-573 | a read record has all eighteen properties |
| Ipl.ParseCellWritten | assignment-solution-step6/assignment-solution-step6/DbEngine/reader/CsvQueryProcessor.cs:523-573 | a column written by ConvertObjecttoString converts back to the same value |
| Ipl.ParseCellsWritten | assignment-solution-step6/assignment-solution-step6/DbEngine/reader/CsvQueryProcessor.cs:523-573 | the first n written columns convert back to the first n values |
| Ipl.RecordTextReadsBack | assignment-solution-step6/assignment-solution-step6/DbEngine/reader/CsvQueryProcessor.cs:523-573 | a record ConvertObjecttoString writes as a line ParseData reads back as the same record, when its texts hold no ',' and its date reads back from its short form |
| Ipl.CellOrder | assignment-solution-step6/assignment-solution-step6/DbEngine/reader/CsvQueryProcessor.cs:462-521 | the order on property values is total and transitive |
| Ipl.RecordLeqTotal | assignment-solution-step6/assignment-solution-step6/DbEngine/reader/CsvQueryProcessor.cs:462-521 | any two records compare one way or the other on the key columns |
| Ipl.RecordLeqTransitive | assignment-solution-step6/assignment-solution-step6/DbEngine/reader/CsvQueryProcessor.cs:462-521 | the record order on the key columns is transitive |
| Ipl.RecordOrder | assignment-solution-step6/assignment-solution-step6/DbEngine/reader/CsvQueryProcessor.cs:462-521 | the OrderBy/ThenBy comparer is a total preorder |
| Ipl.SortData | assignment-solution-step6/assignment-solution-step6/DbEngine/reader/CsvQueryProcessor.cs:462-521 | an unknown field leaves the content as it is; the only failure is the invalid cast of a later key on a plain list |
| Ipl.SortFirstCity | assignment-solution-step6/assignment-solution-step6/DbEngine/reader/CsvQueryProcessor.cs:472-473 | a first sort on city orders by city, then id |
| Ipl.SortChainKnown | assignment-solution-step6/assignment-solution-step6/DbEngine/reader/CsvQueryProcessor.cs:440-444 | known order-by fields sort on their columns in order, with id right after a leading city |
| Ipl.UnknownFirstField | assignment-solution-step6/assignment-solution-step6/DbEngine/reader/CsvQueryProcessor.cs:464-520 | an unknown first field followed by a known one raises InvalidCastException |
| Ipl.ArrangeSorts | assignment-solution-step6/assignment-solution-step6/DbEngine/reader/CsvQueryProcessor.cs:438-446 | the arranged records are a permutation of the input, sorted on the keys, ties in file order |
| DataSets.AddEntry | assignment-solution-step6/assignment-solution-step6/DbEngine/query/GroupedDataSet.cs:12 | Dictionary.Add succeeds exactly when the key is new, appending the entry; otherwise it raises DuplicateKey |
| DataSets.AddEntryDistinct | assignment-solution-step6/assignment-solution-step6/DbEngine/query/GroupedDataSet.cs:12 | a grouped data set never holds a key twice |
| Projection.HeaderOf | assignment-solution-step6/assignment-solution-step6/DbEngine/reader/CsvQueryProcessor.cs:66-73 | an empty file raises; otherwise the header joined with ',' is the first line |
| Projection.CellAt | assignment-solution-step6/assignment-solution-step6/DbEngine/reader/CsvQueryProcessor.cs:955 | row[index] succeeds exactly for an index inside the row, with that value; otherwise IndexOutOfRange |
| Projection.GetIndexOfField | assignment-solution-step6/assignment-solution-step6/DbEngine/reader/CsvQueryProcessor.cs:894-897 | the first header position holding the name, -1 exactly when no column has it |
| Projection.IndexesAt | assignment-solution-step6/assignment-solution-step6/DbEngine/reader/CsvQueryProcessor.cs:647-650 | the k-th index is the header index of the k-th requested field |
| Projection.KnownIndexesAll | assignment-solution-step6/assignment-solution-step6/DbEngine/reader/CsvQueryProcessor.cs:651-657 | with no -1, every index is used |
| Projection.KnownIndexesNone | assignment-solution-step6/assignment-solution-step6/DbEngine/reader/CsvQueryProcessor.cs:658 | with only -1, no index is used |
| Projection.PickInside | assignment-solution-step6/assignment-solution-step6/DbEngine/reader/CsvQueryProcessor.cs:651-657 | indexes inside the row pick exactly the values at those positions |
| Projection.SelectedAllKnown | assignment-solution-step6/assignment-solution-step6/DbEngine/reader/CsvQueryProcessor.cs:643-659 | when every requested field is a column, the result is the value under each requested field, in request order |
| Projection.SelectedNoneKnown | assignment-solution-step6/assignment-solution-step6/DbEngine/reader/CsvQueryProcessor.cs:658 | when no requested field is a column, the whole row is returned |
| Projection.KnownIndexOutside | assignment-solution-step6/assignment-solution-step6/DbEngine/reader/CsvQueryProcessor.cs:655 | a known index past the row's end makes the selection raise |
| Projection.PickStops | assignment-solution-step6/assignment-solution-step6/DbEngine/reader/CsvQueryProcessor.cs:651-657 | once an index raises, the whole selection raises |
| Filtering.ToDate | assignment-solution-step6/assignment-solution-step6/DbEngine/reader/CsvQueryProcessor.cs:964 | Convert.ToDateTime succeeds exactly when the text reads as a date |
| Filtering.FilterContent | assignment-solution-step6/assignment-solution-step6/DbEngine/reader/CsvQueryProcessor.cs:947-994 | only index, format or overflow errors; an operator that reads the cell on a column outside the row raises IndexOutOfRange |
| Filtering.NotEqualNegatesEqual | assignment-solution-step6/assignment-solution-step6/DbEngine/reader/CsvQueryProcessor.cs:953-959 | "!=" and "<>" are the negation of "==", which agrees with "=" |
| Filtering.EqualMeaning | assignment-solution-step6/assignment-solution-step6/DbEngine/reader/CsvQueryProcessor.cs:953-955 | on a known column, "=" is string equality of the cell and the literal |
| Filtering.LessComplementsAtLeast | assignment-solution-step6/assignment-solution-step6/DbEngine/reader/CsvQueryProcessor.cs:961-991 | "<" and ">=" raise the same exception or give opposite verdicts |
| Filtering.GreaterComplementsAtMost | assignment-solution-step6/assignment-solution-step6/DbEngine/reader/CsvQueryProcessor.cs:969-983 | ">" and "<=" raise the same exception or give opposite verdicts |
| Filtering.UnknownOperatorIsFalse | assignment-solution-step6/assignment-solution-step6/DbEngine/reader/CsvQueryProcessor.cs:993 | any other operator is false without reading the row |
| Filtering.GroupVerdictMeaning | assignment-solution-step6/assignment-solution-step6/DbEngine/reader/CsvQueryProcessor.cs:926-930 | a group is true exactly when every restriction is, and false only when some restriction is |
| Filtering.RowVerdictNoGroups | assignment-solution-step6/assignment-solution-step6/DbEngine/reader/CsvQueryProcessor.cs:923-924 | with no non-empty group the verdict stays null |
| Filtering.OrGroupKeeps | assignment-solution-step6/assignment-solution-step6/DbEngine/reader/CsvQueryProcessor.cs:931-934 | an "or" group that holds makes the verdict true, whatever came before |
| Filtering.AndGroupDrops | assignment-solution-step6/assignment-solution-step6/DbEngine/reader/CsvQueryProcessor.cs:935-938 | any other group that fails makes the verdict false, whatever came before |
| Filtering.FilterLinesMeaning | assignment-solution-step6/assignment-solution-step6/DbEngine/reader/CsvQueryProcessor.cs:916-945 | the scan ends without exception exactly when every line's verdict is computed; then a line is kept exactly when its verdict is not false |
| Filtering.FilterLinesNoGroups | assignment-solution-step6/assignment-solution-step6/DbEngine/reader/CsvQueryProcessor.cs:940-943 | with no non-empty group every line is kept, in order |
| Filtering.GroupVerdictStops | assignment-solution-step6/assignment-solution-step6/DbEngine/reader/CsvQueryProcessor.cs:927-930 | after a restriction raises, the later ones do not run |
| Filtering.RowVerdictStops | assignment-solution-step6/assignment-solution-step6/DbEngine/reader/CsvQueryProcessor.cs:924-939 | after a group raises, the later groups do not run |
| Filtering.FilterLinesStops | assignment-solution-step6/assignment-solution-step6/DbEngine/reader/CsvQueryProcessor.cs:920-944 | after a line raises, the later lines are not read |
| Aggregation.GetGroupedValue | assignment-solution-step6/assignment-solution-step6/DbEngine/reader/CsvQueryProcessor.cs:741-767 | [key, statistic] when there is an aggregate; IndexOutOfRange exactly when there is none |
| Aggregation.StatisticOfSummary | assignment-solution-step6/assignment-solution-step6/DbEngine/reader/CsvQueryProcessor.cs:744-764 | sum, count, min and max of a key's totals read back as the wrapped sum, the number, the least and the greatest of its values; another name gives "" |
| Aggregation.GroupedValueMeaning | assignment-solution-step6/assignment-solution-step6/DbEngine/reader/CsvQueryProcessor.cs:741-767 | a key's entry is [key, statistic of that key's values] |
| Aggregation.LinePairs | assignment-solution-step6/assignment-solution-step6/DbEngine/reader/CsvQueryProcessor.cs:721-726 | one (group value, Int32 value) pair per line; a missing column raises IndexOutOfRange |
| Aggregation.AddGroupedValues | assignment-solution-step6/assignment-solution-step6/DbEngine/reader/CsvQueryProcessor.cs:729-735 | the earlier entries are kept and one entry per key is appended; with an aggregate, the only failure is a duplicate key |
| Aggregation.AddGroupedValuesFresh | assignment-solution-step6/assignment-solution-step6/DbEngine/reader/CsvQueryProcessor.cs:729-735 | new distinct keys are all added, each with [key, statistic], in key order |
| Aggregation.AddGroupedValuesDuplicate | assignment-solution-step6/assignment-solution-step6/DbEngine/reader/CsvQueryProcessor.cs:734 | a key already in the data set raises DuplicateKey |
| Aggregation.GroupFieldStep | assignment-solution-step6/assignment-solution-step6/DbEngine/reader/CsvQueryProcessor.cs:718-735 | one group field keeps the dictionary valid |
| Aggregation.GroupByRun | assignment-solution-step6/assignment-solution-step6/DbEngine/reader/CsvQueryProcessor.cs:716-736 | the dictionary stays valid across group fields |
| Aggregation.GroupByRunNext | assignment-solution-step6/assignment-solution-step6/DbEngine/reader/CsvQueryProcessor.cs:716-736 | the next field's step continues the run, or its exception ends it |
| Aggregation.GroupBySingleField | assignment-solution-step6/assignment-solution-step6/DbEngine/reader/CsvQueryProcessor.cs:709-739 | one group field gives one entry per distinct group value, in ascending key order, each [key, statistic of that value's totals] |
| Aggregation.GroupByFirstField | assignment-solution-step6/assignment-solution-step6/DbEngine/reader/CsvQueryProcessor.cs:716-735 | after the first group field, every group value of the lines is a key of the data set and of the dictionary |
| Aggregation.GroupFieldStepDuplicate | assignment-solution-step6/assignment-solution-step6/DbEngine/reader/CsvQueryProcessor.cs:734 | a dictionary key already in the data set makes the field raise DuplicateKey |
| Aggregation.GroupByRepeatedKeys | assignment-solution-step6/assignment-solution-step6/DbEngine/reader/CsvQueryProcessor.cs:715-735 | the dictionary is never cleared, so a second group field with at least one line raises DuplicateKey |
| Aggregation.GroupByAggregatesRepeatedKeys | assignment-solution-step6/assignment-solution-step6/DbEngine/reader/CsvQueryProcessor.cs:709-739 | with an aggregate, at least one data line, and every data line holding the first two group columns and the aggregate's column, two or more group fields make `Dictionary.Add` raise DuplicateKey |
| Aggregation.GroupByRunStops | assignment-solution-step6/assignment-solution-step6/DbEngine/reader/CsvQueryProcessor.cs:716-736 | after a group field raises, the later fields do not run |
| Aggregation.LinePairsStops | assignment-solution-step6/assignment-solution-step6/DbEngine/reader/CsvQueryProcessor.cs:721-726 | after a line lacks a column, the later lines are not read |
| Aggregation.AddGroupedValuesStops | assignment-solution-step6/assignment-solution-step6/DbEngine/reader/CsvQueryProcessor.cs:729-735 | after a key raises, the later keys are not added |
| SimpleAggregation.ColumnInt | assignment-solution-step6/assignment-solution-step6/DbEngine/reader/CsvQueryProcessor.cs:872 | the cell read with Convert.ToInt32 is an Int32; failures are index, format or overflow errors |
| SimpleAggregation.ColumnInts | assignment-solution-step6/assignment-solution-step6/DbEngine/reader/CsvQueryProcessor.cs:844-847 | the column's values, one per line, each the value of its line's cell |
| SimpleAggregation.ColumnIntsReadable | assignment-solution-step6/assignment-solution-step6/DbEngine/reader/CsvQueryProcessor.cs:844-847 | a column whose every cell reads can be read |
| SimpleAggregation.ColumnSum | assignment-solution-step6/assignment-solution-step6/DbEngine/reader/CsvQueryProcessor.cs:890 | the sum is an Int32; failures are index, format or overflow errors |
| SimpleAggregation.ColumnSumMeaning | assignment-solution-step6/assignment-solution-step6/DbEngine/reader/CsvQueryProcessor.cs:887-892 | on a readable column the sum is the sum of its values, and it raises Overflow exactly when a partial sum leaves the Int32 range |
| SimpleAggregation.ColumnSumUnreadable | assignment-solution-step6/assignment-solution-step6/DbEngine/reader/CsvQueryProcessor.cs:890 | a column that cannot be read makes the sum raise |
| SimpleAggregation.ColumnMin | assignment-solution-step6/assignment-solution-step6/DbEngine/reader/CsvQueryProcessor.cs:840-849 | the least value of the column, one of its values when there is a line; raises exactly when the column cannot be read |
| SimpleAggregation.ColumnMax | assignment-solution-step6/assignment-solution-step6/DbEngine/reader/CsvQueryProcessor.cs:851-860 | the greatest value of the column, one of its values when there is a line; raises exactly when the column cannot be read |
| SimpleAggregation.MinWithoutWhereErrors | assignment-solution-step6/assignment-solution-step6/DbEngine/reader/CsvQueryProcessor.cs:840-849 | the as-written minimum raises exactly when the column cannot be read, with the same exception |
| SimpleAggregation.MaxWithoutWhereErrors | assignment-solution-step6/assignment-solution-step6/DbEngine/reader/CsvQueryProcessor.cs:851-860 | the as-written maximum raises exactly when the column cannot be read, with the same exception |
| SimpleAggregation.MinWithoutWhereAgrees | assignment-solution-step6/assignment-solution-step6/DbEngine/reader/CsvQueryProcessor.cs:870-874 | without Int32.MinValue in the column, the as-written minimum is the least value |
| SimpleAggregation.MaxWithoutWhereAgrees | assignment-solution-step6/assignment-solution-step6/DbEngine/reader/CsvQueryProcessor.cs:876-880 | without Int32.MaxValue in the column, the as-written maximum is the greatest value |
| SimpleAggregation.MinWithoutWhereCounterexample | assignment-solution-step6/assignment-solution-step6/DbEngine/reader/CsvQueryProcessor.cs:870-874 | lines reading Int32.MinValue then 5: the as-written minimum is 5, the least value is Int32.MinValue |
| SimpleAggregation.MaxWithoutWhereCounterexample | assignment-solution-step6/assignment-solution-step6/DbEngine/reader/CsvQueryProcessor.cs:876-880 | lines reading Int32.MaxValue then 5: the as-written maximum is 5, the greatest value is Int32.MaxValue |
| SimpleAggregation.CounterexampleLines | assignment-solution-step6/assignment-solution-step6/DbEngine/reader/CsvQueryProcessor.cs:872 | lines reading Int32.MinValue, Int32.MaxValue and 5 exist |
| SimpleAggregation.AggregateEntry | assignment-solution-step6/assignment-solution-step6/DbEngine/reader/CsvQueryProcessor.cs:805-834 | a known function gives an entry labelled function(field); exactly the other names give none |
| SimpleAggregation.AggregateEntryMeaning | assignment-solution-step6/assignment-solution-step6/DbEngine/reader/CsvQueryProcessor.cs:862-892 | when no partial sum leaves the Int32 range: count is the number of data lines, sum the sum of the column, avg the formatted sum and count, and on a non-empty column min and max its least and greatest value |
| SimpleAggregation.AggregateEntryAsWritten | assignment-solution-step6/assignment-solution-step6/DbEngine/reader/CsvQueryProcessor.cs:840-880 | the min and max entries raise as the as-written loops do, and agree with them when the column never holds the Int32.MinValue or Int32.MaxValue sentinel |
| SimpleAggregation.SimpleAggregates | assignment-solution-step6/assignment-solution-step6/DbEngine/reader/CsvQueryProcessor.cs:802-835 | the entries' keys are distinct |
| SimpleAggregation.SimpleAggregatesOf | assignment-solution-step6/assignment-solution-step6/DbEngine/reader/CsvQueryProcessor.cs:795-838 | an empty file raises NullReferenceException |
| SimpleAggregation.SimpleAggregatesKeys | assignment-solution-step6/assignment-solution-step6/DbEngine/reader/CsvQueryProcessor.cs:802-835 | the keys are the labels of the known aggregates, in select-list order |
| SimpleAggregation.SimpleAggregatesRepeated | assignment-solution-step6/assignment-solution-step6/DbEngine/reader/CsvQueryProcessor.cs:809 | repeating an aggregate raises DuplicateKey when its turn comes |
| SimpleAggregation.SimpleAggregatesStops | assignment-solution-step6/assignment-solution-step6/DbEngine/reader/CsvQueryProcessor.cs:802-835 | after an aggregate raises, the later ones do not run |
| SimpleAggregation.ColumnIntsStops | assignment-solution-step6/assignment-solution-step6/DbEngine/reader/CsvQueryProcessor.cs:844-847 | after a cell does not read, the later lines are not read |
| QueryResults.ReverseAt | assignment-solution-step6/assignment-solution-step6/DbEngine/reader/CsvQueryProcessor.cs:171 | position i holds the element at position n-1-i |
| QueryResults.SelectAllRows | assignment-solution-step6/assignment-solution-step6/DbEngine/reader/CsvQueryProcessor.cs:160-172 | one row per data line, the last line first, each row joining back to its line |
| QueryResults.ReadAllMeaning | assignment-solution-step6/assignment-solution-step6/DbEngine/reader/CsvQueryProcessor.cs:547-571 | the scan succeeds exactly when every line reads, holding each line's value in order; otherwise the first failing line's exception |
| QueryResults.ReadAllStops | assignment-solution-step6/assignment-solution-step6/DbEngine/reader/CsvQueryProcessor.cs:547-571 | after a line raises, the later lines are not read |
| QueryResults.SelectedRows | assignment-solution-step6/assignment-solution-step6/DbEngine/reader/CsvQueryProcessor.cs:602 | one selected row per kept line |
| QueryResults.TotalsEntries | assignment-solution-step6/assignment-solution-step6/DbEngine/reader/CsvQueryProcessor.cs:592-595 | the grouped data set has the dictionary's keys, in its order |
| QueryResults.GroupedTotalsMeaning | assignment-solution-step6/assignment-solution-step6/DbEngine/reader/CsvQueryProcessor.cs:580-597 | one entry per distinct group value, each the wrapped sum, least, greatest and number of its values |
| QueryResults.GroupedTotalsMissingColumn | assignment-solution-step6/assignment-solution-step6/DbEngine/reader/CsvQueryProcessor.cs:588-590 | a kept line without one of the columns raises IndexOutOfRange |
| QueryResults.ConditionsResult | assignment-solution-step6/assignment-solution-step6/DbEngine/reader/CsvQueryProcessor.cs:580-604 | grouped with a group-by field (no selected field raises), otherwise one row per kept line |
| QueryResults.AggregatesResult | assignment-solution-step6/assignment-solution-step6/DbEngine/reader/CsvQueryProcessor.cs:691-698 | always a grouped data set; an empty file raises NullReferenceException |
| QueryResults.ParseRecords | assignment-solution-step6/assignment-solution-step6/DbEngine/reader/CsvQueryProcessor.cs:544-573 | one record per line |
| QueryResults.Project | assignment-solution-step6/assignment-solution-step6/DbEngine/reader/CsvQueryProcessor.cs:452-455 | the only failure is IndexOutOfRange |
| QueryResults.ProjectMeaning | assignment-solution-step6/assignment-solution-step6/DbEngine/reader/CsvQueryProcessor.cs:452-455 | succeeds exactly when every field names a column inside the row, holding the value under each field in request order |
| QueryResults.ProjectStops | assignment-solution-step6/assignment-solution-step6/DbEngine/reader/CsvQueryProcessor.cs:452-455 | a field outside the row, after fields inside it, raises IndexOutOfRange |
| QueryResults.ProjectRows | assignment-solution-step6/assignment-solution-step6/DbEngine/reader/CsvQueryProcessor.cs:448-457 | one projected row per written-back line |
| QueryResults.OrderByRowsSorted | assignment-solution-step6/assignment-solution-step6/DbEngine/reader/CsvQueryProcessor.cs:432-460 | with known order-by fields, the rows project a permutation of the records sorted on the order-by columns (id after a leading city), ties in file order |
| QueryResults.OrderByUnknownFields | assignment-solution-step6/assignment-solution-step6/DbEngine/reader/CsvQueryProcessor.cs:520 | order-by fields that are no property of the record leave the records in file order |
| QueryResults.SortChainUnknown | assignment-solution-step6/assignment-solution-step6/DbEngine/reader/CsvQueryProcessor.cs:440-444 | unknown fields leave a plain list |
| QueryResults.SortChainStops | assignment-solution-step6/assignment-solution-step6/DbEngine/reader/CsvQueryProcessor.cs:440-444 | after sortData raises, later fields do not run |
| QueryResults.OrderByInvalidCast | assignment-solution-step6/assignment-solution-step6/DbEngine/reader/CsvQueryProcessor.cs:467 | an unknown first order-by field followed by a known one raises InvalidCastException |
| CsvQueryProcessors.CsvQueryProcessor.constructor | assignment-solution-step6/assignment-solution-step6/DbEngine/reader/CsvQueryProcessor.cs:27-59 | no header, no kept lines, reader at the start of the file |
| CsvQueryProcessors.CsvQueryProcessor.ReadHeader | assignment-solution-step6/assignment-solution-step6/DbEngine/reader/CsvQueryProcessor.cs:66-73 | the header is the first line split on ','; an empty file raises NullReferenceException and keeps the old header |
| CsvQueryProcessors.CsvQueryProcessor.GroupResult | assignment-solution-step6/assignment-solution-step6/DbEngine/reader/CsvQueryProcessor.cs:926-930 | the group's verdict: the restrictions ANDed, stopping at false |
| CsvQueryProcessors.CsvQueryProcessor.RowResult | assignment-solution-step6/assignment-solution-step6/DbEngine/reader/CsvQueryProcessor.cs:923-939 | the row's verdict over the non-empty groups |
| CsvQueryProcessors.CsvQueryProcessor.FilterResult | assignment-solution-step6/assignment-solution-step6/DbEngine/reader/CsvQueryProcessor.cs:916-945 | the lines whose verdict is not false are appended to the kept lines in file order, until a line raises; an empty file raises |
| CsvQueryProcessors.CsvQueryProcessor.GetSelectedValues | assignment-solution-step6/assignment-solution-step6/DbEngine/reader/CsvQueryProcessor.cs:643-659 | the selected values of the row, as the projection lemmas describe |
| CsvQueryProcessors.CsvQueryProcessor.FindMinWithoutWhere | assignment-solution-step6/assignment-solution-step6/DbEngine/reader/CsvQueryProcessor.cs:840-849 | ("min(field)", least value of the column), Int32.MinValue without data lines |
| CsvQueryProcessors.CsvQueryProcessor.FindMaxWithoutWhere | assignment-solution-step6/assignment-solution-step6/DbEngine/reader/CsvQueryProcessor.cs:851-860 | ("max(field)", greatest value of the column), Int32.MinValue without data lines |
| CsvQueryProcessors.CsvQueryProcessor.AggregateWithoutWhere | assignment-solution-step6/assignment-solution-step6/DbEngine/reader/CsvQueryProcessor.cs:805-834 | the aggregate's labelled entry, none for another function name |
| CsvQueryProcessors.CsvQueryProcessor.ParseSimpleAggregateFunctions | assignment-solution-step6/assignment-solution-step6/DbEngine/reader/CsvQueryProcessor.cs:795-838 | the header is read, then each aggregate's entry is added in select-list order |
| CsvQueryProcessors.CsvQueryProcessor.AddLines | assignment-solution-step6/assignment-solution-step6/DbEngine/reader/CsvQueryProcessor.cs:721-726 | succeeds exactly when every line has both columns, and then the dictionary has every line's pair added in order |
| CsvQueryProcessors.CsvQueryProcessor.AddGroupedKeys | assignment-solution-step6/assignment-solution-step6/DbEngine/reader/CsvQueryProcessor.cs:729-735 | each key's [key, statistic] added to the data set in dictionary order |
| CsvQueryProcessors.CsvQueryProcessor.GroupFieldPass | assignment-solution-step6/assignment-solution-step6/DbEngine/reader/CsvQueryProcessor.cs:718-735 | one group field: lines added, dictionary reordered by key, keys added |
| CsvQueryProcessors.CsvQueryProcessor.GroupField | assignment-solution-step6/assignment-solution-step6/DbEngine/reader/CsvQueryProcessor.cs:716-736 | the n-th pass continues the run or ends it with its exception |
| CsvQueryProcessors.CsvQueryProcessor.GroupByFields | assignment-solution-step6/assignment-solution-step6/DbEngine/reader/CsvQueryProcessor.cs:716-736 | the data set after all group fields over one shared dictionary |
| CsvQueryProcessors.CsvQueryProcessor.ParseGroupByAggregateFunctions | assignment-solution-step6/assignment-solution-step6/DbEngine/reader/CsvQueryProcessor.cs:709-739 | the header is read, then every group field's entries are added |
| CsvQueryProcessors.CsvQueryProcessor.ParseAggregateFunctions | assignment-solution-step6/assignment-solution-step6/DbEngine/reader/CsvQueryProcessor.cs:691-698 | ungrouped without a group-by field, grouped otherwise |
| CsvQueryProcessors.CsvQueryProcessor.CopyTotals | assignment-solution-step6/assignment-solution-step6/DbEngine/reader/CsvQueryProcessor.cs:592-595 | each dictionary entry copied in order; its keys are distinct, so no Add raises |
| CsvQueryProcessors.CsvQueryProcessor.SelectRows | assignment-solution-step6/assignment-solution-step6/DbEngine/reader/CsvQueryProcessor.cs:602 | the selected values of every kept line, in order |
| CsvQueryProcessors.CsvQueryProcessor.GetQueryWithConditions | assignment-solution-step6/assignment-solution-step6/DbEngine/reader/CsvQueryProcessor.cs:575-604 | header read and file filtered (either may raise), then the grouped totals or the selected rows of every line kept so far |
| CsvQueryProcessors.CsvQueryProcessor.ParseData | assignment-solution-step6/assignment-solution-step6/DbEngine/reader/CsvQueryProcessor.cs:544-573 | each line read as a record, in order; the first bad line raises |
| CsvQueryProcessors.CsvQueryProcessor.SortOrderByFields | assignment-solution-step6/assignment-solution-step6/DbEngine/reader/CsvQueryProcessor.cs:439-444 | sortData applied for each field, the first starting the order |
| CsvQueryProcessors.CsvQueryProcessor.ConvertObjecttoString | assignment-solution-step6/assignment-solution-step6/DbEngine/reader/CsvQueryProcessor.cs:523-542 | each record written back as one comma-separated line, in order |
| CsvQueryProcessors.CsvQueryProcessor.ProjectRow | assignment-solution-step6/assignment-solution-step6/DbEngine/reader/CsvQueryProcessor.cs:451-455 | the row's value under each requested field, as the projection lemmas describe |
| CsvQueryProcessors.CsvQueryProcessor.ProjectLines | assignment-solution-step6/assignment-solution-step6/DbEngine/reader/CsvQueryProcessor.cs:448-457 | each written-back line split and projected, in order |
| CsvQueryProcessors.CsvQueryProcessor.GetQueryWithOrderBy | assignment-solution-step6/assignment-solution-step6/DbEngine/reader/CsvQueryProcessor.cs:432-460 | header read and file filtered, then the kept records sorted by the order-by chain and projected |
| CsvQueryProcessors.CsvQueryProcessor.ReadRemaining | assignment-solution-step6/assignment-solution-step6/DbEngine/reader/CsvQueryProcessor.cs:162-171 | the reader skips one line, reads the rest split on ',', and the rows are reversed; the reader ends at the end of the file |
| CsvQueryProcessors.CsvQueryProcessor.GetDataRow | assignment-solution-step6/assignment-solution-step6/DbEngine/reader/CsvQueryProcessor.cs:133-430 | each query type goes to its branch: select-all, order-by, NOT, aggregates; another type gives an empty data set |
| Queries.Classify | assignment-solution-step6/assignment-solution-step6/DbEngine/query/Query.cs:40-92 | exactly one of the eight types; a wildcard first field wins; AGGREGATE_FUNCTION exactly when the first field is not "*" and there are aggregates; only the logical operators may change; an exception only for an empty field list or a failing priority-10 parse |
| Queries.ExecuteDispatched | assignment-solution-step6/assignment-solution-step6/DbEngine/query/Query.cs:25-94 | a dispatched query returns what GetDataRow returns on a processor fresh over the file |
| Queries.PrepareStepsKeepsOrderBy | assignment-solution-step6/assignment-solution-step6/DbEngine/query/Query.cs:31-37 | the parse calls never write the order-by fields |
| Queries.ExecuteFieldsNeverOrdered | assignment-solution-step6/assignment-solution-step6/DbEngine/query/Query.cs:53-57 | a fields query always has no order-by fields and takes the legacy branch |
| Queries.ExecuteSelectAll | assignment-solution-step6/assignment-solution-step6/DbEngine/query/Query.cs:40-44 | a select-all returns one row per data line, the last line first, each joining back to its line |
| Queries.ExecuteNotKeepsEveryLine | assignment-solution-step6/assignment-solution-step6/DbEngine/query/Query.cs:79-84 | a NOT query's result is computed over every data line of the file |
| Queries.Query.constructor | assignment-solution-step6/assignment-solution-step6/DbEngine/query/Query.cs:11-13 | no parser, parameter or processor yet |
| Queries.Query.RunQueryType | assignment-solution-step6/assignment-solution-step6/DbEngine/query/Query.cs:42-43 | stores the query type and returns GetDataRow's answer; the clauses are unchanged |
| Queries.Query.ParseClauses | assignment-solution-step6/assignment-solution-step6/DbEngine/query/Query.cs:31-37 | priorities 2, 1, 4 only without aggregates, then 5; the first exception stops them |
| Queries.Query.DispatchQuery | assignment-solution-step6/assignment-solution-step6/DbEngine/query/Query.cs:40-92 | the classified query's GetDataRow answer on the fresh processor |
| Queries.Query.ExecuteQuery | assignment-solution-step6/assignment-solution-step6/DbEngine/query/Query.cs:25-94 | file name parsed, file opened (a missing file raises FileNotFound), clauses parsed, query dispatched |
| Int32.Parse | assignment-solution-step6/assignment-solution-step6/DbEngine/reader/CsvQueryProcessor.cs:967 | a parsed value is in the Int32 range; failures are format or overflow errors |
| Int32.TryParse | assignment-solution-step6/assignment-solution-step6/DbEngine/reader/CsvQueryProcessor.cs:772 | an Int32: Parse's value on a number, and 0 where Parse would raise |
| Int32.Wrap | assignment-solution-step6/assignment-solution-step6/DbEngine/reader/CsvQueryProcessor.cs:777 | unchecked arithmetic: in range, congruent modulo 2^32, unchanged when already in range |
| Int32.ParseToString | assignment-solution-step6/assignment-solution-step6/DbEngine/reader/CsvQueryProcessor.cs:531 | parsing the text ToString writes gives the number back |
| Text.SplitJoin | assignment-solution-step6/assignment-solution-step6/DbEngine/query/parser/QueryParser.cs:151 | splitting the join of separator-free pieces gives the pieces back |
| Text.JoinSplit | assignment-solution-step6/assignment-solution-step6/DbEngine/reader/CsvQueryProcessor.cs:539 | joining a split with its separator gives the string back |
| Text.TrimIdempotent | assignment-solution-step6/assignment-solution-step6/DbEngine/query/parser/QueryParser.cs:200 | trimming twice is trimming once |
| Text.IndexOf | assignment-solution-step6/assignment-solution-step6/DbEngine/query/parser/QueryParser.cs:204 | the first occurrence, or -1 exactly when there is none |
| Text.SplitOnSecondPiece | assignment-solution-step6/assignment-solution-step6/DbEngine/query/parser/QueryParser.cs:382 | when the separator occurs, the split has a second piece: the text after the first occurrence, up to the next |

## Left out

- File and stream I/O are not modelled as such. The file system is a parameter mapping a name to
  the file's lines, and a missing file raises FileNotFound. `Path.Combine` with the current
  directory is dropped. `File.ReadLines` and `ReadAllLines` read the same fixed lines, and the
  constructor's `StreamReader` is a position in them.
- The legacy branches of `GetDataRow` return a `Legacy` marker instead of rows:
  - the fields branch without an order-by;
  - the GREATERTHAN, LESSTHAN, LESSTHANOREQUALTO and LOGICAL_OPERATOR branches.

  They use hard-coded column positions, `Int16` conversion and swaps of output slots, and
  depend on this one data set. The code after the `return` in the NOT branch is unreachable.
- `CsvGroupByQueryProcessor.cs` is not part of this model. `ExecuteQuery` never uses it.
- `GetColumnType`, `IsDatePatternMatch`, `MatchCondition`, `ParseFileContent` and the
  `GetHashCode` overrides are not part of this model. None of them is called on any modelled
  path.
- Dates: `DateTime.TryParse` and `Convert.ToDateTime` are a parameter from text to ticks.
  `ToShortDateString` is a parameter from ticks to text.
- `avg` is `Math.Round` on a double. It is a parameter from (sum, count) to text.
- String comparison: culture-aware `OrderBy` on strings, `InvariantCulture` equality and `IndexOf(string)` are
  modelled as ordinal (character by character).
- Ipl.ColumnOf: the record's eighteen properties are the fixed column positions of `IPL.cs`, as
  `ParseData` reads them.
- A `List<T>` indexer or `RemoveAt` out of range raises ArgumentOutOfRange, which the model writes as
  IndexOutOfRange, the exception an array index raises. This covers `Fields[0]` (`Query.cs` line 40
  and `CsvQueryProcessor.cs` line 584), `GroupByFields[0]` (line 583), `AggregateFunctions[0]`
  (lines 719 and 744) and `RemoveAt(0)` (lines 714 and 919).
- `Console.WriteLine` in `GetFields` is dropped.
- SimpleAggregation.ColumnMin: states the least value of the column. `FindMinValue` as written
  resets on a real Int32.MinValue; the model keeps the intended minimum (see "## Findings").
  `AggregateEntryAsWritten` and `MinWithoutWhereAgrees` show the two agree without that value.
- SimpleAggregation.ColumnMax: states the greatest value of the column. `FindMaxValue` as written
  resets on a real Int32.MaxValue; the model keeps the intended maximum (see "## Findings").
- SimpleAggregation.AggregateEntry: its min and max entries are `ColumnMin` and `ColumnMax`, the
  intended values, not the as-written fold, which differs only when the column holds the sentinel.
- SimpleAggregation.AggregateEntryMeaning: states the intended least and greatest value for min
  and max; the as-written fold gives them only without the sentinel (`AggregateEntryAsWritten`).
- CsvQueryProcessors.CsvQueryProcessor.FindMinWithoutWhere: returns the intended least value;
  the source loop gives 5 for a column reading Int32.MinValue then 5.
- CsvQueryProcessors.CsvQueryProcessor.FindMaxWithoutWhere: returns the intended greatest value;
  the source loop gives 5 for a column reading Int32.MaxValue then 5.
- Grouping.GroupTable.AddValue: the count is an unbounded integer. A count past Int32.MaxValue
  would wrap in the source, which needs more than 2^31 lines.
- `ConditionGroups` is never written by any modelled code, as in the source. The filter is
  modelled in full for any groups, but `ExecuteQuery` always passes none.
- `QueryParameter.cs`, `Header` and `Row` are not part of the repository's selected files. The model
  declares only their fields. A fresh `QueryParameter` has empty text and empty lists, and
  `QueryType` is "".
- QueryParsers.QueryParser.GetAggregateFunctions: the regex `\(([^)]*)\)` is modelled by
  `RegexField` as the text between the first '(' and the next ')'. Without such a ')', the field
  is "". A '(' inside the function name is not considered, because the piece is only read past
  index 0.

## Findings

| source | as written | input that shows it | evidently intended | confidence | as-written member | corrected member |
|---|---|---|---|---|---|---|
| assignment-solution-step6/assignment-solution-step6/DbEngine/reader/CsvQueryProcessor.cs:876-880 | `FindMaxValue` treats `int.MaxValue` as "no value yet", but `FindMaxWithoutWhere` seeds it with `int.MinValue`. So a real `int.MaxValue` in the column is replaced by the next value. | two data lines whose column reads 2147483647 then 5: the result is 5 | the greatest value of the column (2147483647) | not executed | SimpleAggregation.MaxWithoutWhereCounterexample | CsvQueryProcessors.CsvQueryProcessor.FindMaxWithoutWhere |
| assignment-solution-step6/assignment-solution-step6/DbEngine/reader/CsvQueryProcessor.cs:870-874 | `FindMinValue` treats `int.MinValue` as "no value yet" on every line, so a real `int.MinValue` in the column is replaced by the next value. | two data lines whose column reads -2147483648 then 5: the result is 5 | the least value of the column (-2147483648) | not executed | SimpleAggregation.MinWithoutWhereCounterexample | CsvQueryProcessors.CsvQueryProcessor.FindMinWithoutWhere |

For each finding, both halves are in the model:
- `SimpleAggregation.MinWithoutWhere` and `SimpleAggregation.MaxWithoutWhere` model the loops as
  written, and the counterexample lemmas exhibit the wrong answer.
- The corrected processor methods read the seed as "no value yet" only before the first line.
  They are proved to return `ColumnMin` and `ColumnMax`, the least and greatest value of the
  column, and `Int32.MinValue` when there is no data line. The rest of the model, including
  `AggregateEntry`, uses these corrected values, so the "## Model" rows citing those loops state
  the intended result, as "## Left out" says member by member.
