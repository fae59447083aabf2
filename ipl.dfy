/**
 * The match record the order-by path reads each filtered line into: eighteen columns, five of
 * them Int32, one a date and the rest text; the sort keys sortData chains for each order-by
 * field; and the text a record is written back as.
 */
module Ipl {
  import opened Wrappers
  import opened Text
  import Int32
  import opened Sorting

  /** The number of properties of a record. */
  const ColumnCount := 18

  /** The column of a property of the record, in declaration order; -1 for any other name. */
  function ColumnOf(name: string): (col: int)
    ensures -1 <= col < ColumnCount
  {
    match name
    case "id" => 0
    case "season" => 1
    case "city" => 2
    case "date" => 3
    case "team1" => 4
    case "team2" => 5
    case "toss_winner" => 6
    case "toss_decision" => 7
    case "result" => 8
    case "dl_applied" => 9
    case "winner" => 10
    case "win_by_runs" => 11
    case "win_by_wickets" => 12
    case "player_of_match" => 13
    case "venue" => 14
    case "umpire1" => 15
    case "umpire2" => 16
    case "umpire3" => 17
    case _ => -1
  }

  datatype Kind = IntKind | DateKind | TextKind

  /** id, season, dl_applied, win_by_runs and win_by_wickets are Int32; date is a date. */
  function KindOf(col: int): Kind
  {
    if col in {0, 1, 9, 11, 12} then IntKind
    else if col == 3 then DateKind
    else TextKind
  }

  /** A property value; a date is the instant a date parser gives, as a number of ticks. */
  datatype Cell = IntCell(n: int) | DateCell(ticks: int) | TextCell(text: string)

  predicate HasKind(c: Cell, k: Kind)
  {
    match c
    case IntCell(_) => k == IntKind
    case DateCell(_) => k == DateKind
    case TextCell(_) => k == TextKind
  }

  /** Column col of the split line, converted by its kind: Convert.ToInt32, Convert.ToDateTime or as is. */
  function ParseCell(content: seq<string>, col: int, parseDate: string -> Option<int>): (r: Result<Cell>)
    requires 0 <= col
    ensures r.Ok? ==> HasKind(r.value, KindOf(col))
    ensures r.Throw? ==> r.error in {IndexOutOfRange, Format, Overflow}
  {
    if col >= |content| then Throw(IndexOutOfRange)
    else
      match KindOf(col)
      case IntKind =>
        var v :- Int32.Parse(content[col]);
        Ok(IntCell(v))
      case DateKind =>
        (match parseDate(content[col])
         case None => Throw(Format)
         case Some(t) => Ok(DateCell(t)))
      case TextKind => Ok(TextCell(content[col]))
  }

  /** The first n columns, converted left to right: the first bad column raises the exception. */
  function ParseCells(content: seq<string>, n: nat, parseDate: string -> Option<int>): (r: Result<seq<Cell>>)
    ensures r.Ok? ==> |r.value| == n && forall k :: 0 <= k < n ==> HasKind(r.value[k], KindOf(k))
  {
    if n == 0 then Ok([])
    else
      var init :- ParseCells(content, n - 1, parseDate);
      var c :- ParseCell(content, n - 1, parseDate);
      Ok(init + [c])
  }

  /** ParseData on one line: split on ',' and read the eighteen columns. */
  function ParseRecord(line: string, parseDate: string -> Option<int>): (r: Result<seq<Cell>>)
    ensures r.Ok? ==> |r.value| == ColumnCount
  {
    ParseCells(Split(line, ','), ColumnCount, parseDate)
  }

  /** The text ConvertObjecttoString writes for a value: Int32.ToString, the short date form, or the text. */
  function CellText(c: Cell, formatDate: int -> string): string
  {
    match c
    case IntCell(n) => Int32.ToString(n)
    case DateCell(t) => formatDate(t)
    case TextCell(s) => s
  }

  function CellTexts(cells: seq<Cell>, formatDate: int -> string): (ts: seq<string>)
    ensures |ts| == |cells|
  {
    seq(|cells|, k requires 0 <= k < |cells| => CellText(cells[k], formatDate))
  }

  /** A record written back as one comma-separated line. */
  function RecordText(cells: seq<Cell>, formatDate: int -> string): string
  {
    Join(CellTexts(cells, formatDate), ",")
  }

  /** A digit string holds no comma. */
  lemma NumberHasNoComma(n: int)
    ensures ',' !in Int32.ToString(n)
  {
    var ds := Int32.NatDigits(if n < 0 then -n else n);
    assert forall k :: 0 <= k < |ds| ==> Int32.IsDigit(ds[k]);
    if n < 0 {
      assert Int32.ToString(n) == "-" + ds;
    }
  }

  /**
   * A record that can be written back and read again: eighteen values of the declared kinds,
   * Int32 values in range, no ',' in a text, and dates that read back from their short form.
   */
  predicate Writable(cells: seq<Cell>, parseDate: string -> Option<int>, formatDate: int -> string)
  {
    && |cells| == ColumnCount
    && forall k :: 0 <= k < |cells| ==>
         && HasKind(cells[k], KindOf(k))
         && match cells[k]
            case IntCell(n) => Int32.InRange(n)
            case DateCell(t) => parseDate(formatDate(t)) == Some(t) && ',' !in formatDate(t)
            case TextCell(x) => ',' !in x
  }

  lemma {:induction false} ParseCellsWritten(cells: seq<Cell>, n: nat, parseDate: string -> Option<int>,
                                             formatDate: int -> string)
    requires Writable(cells, parseDate, formatDate) && n <= ColumnCount
    ensures ParseCells(CellTexts(cells, formatDate), n, parseDate) == Ok(cells[..n])
  {
    if n > 0 {
      var texts := CellTexts(cells, formatDate);
      ParseCellsWritten(cells, n - 1, parseDate, formatDate);
      ParseCellWritten(cells, n - 1, parseDate, formatDate);
      assert ParseCells(texts, n, parseDate) == Ok(cells[..n - 1] + [cells[n - 1]]);
      assert cells[..n] == cells[..n - 1] + [cells[n - 1]];
    }
  }

  lemma ParseCellWritten(cells: seq<Cell>, col: nat, parseDate: string -> Option<int>, formatDate: int -> string)
    requires Writable(cells, parseDate, formatDate) && col < ColumnCount
    ensures ParseCell(CellTexts(cells, formatDate), col, parseDate) == Ok(cells[col])
  {
    var texts := CellTexts(cells, formatDate);
    assert texts[col] == CellText(cells[col], formatDate);
    assert HasKind(cells[col], KindOf(col));
    match cells[col]
    case IntCell(v) =>
      assert Int32.InRange(v);
      Int32.ParseToString(v);
    case DateCell(t) =>
      assert parseDate(formatDate(t)) == Some(t);
    case TextCell(_) =>
  }

  /** ParseData reads back what ConvertObjecttoString wrote: the record written as a line reads as the same record. */
  lemma RecordTextReadsBack(cells: seq<Cell>, parseDate: string -> Option<int>, formatDate: int -> string)
    requires Writable(cells, parseDate, formatDate)
    ensures ParseRecord(RecordText(cells, formatDate), parseDate) == Ok(cells)
  {
    var texts := CellTexts(cells, formatDate);
    forall k | 0 <= k < |texts|
      ensures ',' !in texts[k]
    {
      if cells[k].IntCell? {
        NumberHasNoComma(cells[k].n);
      }
    }
    assert "," == [','];
    SplitJoin(texts, ',');
    ParseCellsWritten(cells, ColumnCount, parseDate, formatDate);
    assert cells[..ColumnCount] == cells;
  }

  // ---------------------------------------------------------------- order

  function KindRank(c: Cell): int
  {
    match c
    case IntCell(_) => 0
    case DateCell(_) => 1
    case TextCell(_) => 2
  }

  /** Numbers and dates by value, text in ordinal order; cells of different kinds by kind. */
  predicate CellLeq(a: Cell, b: Cell)
  {
    if KindRank(a) != KindRank(b) then KindRank(a) < KindRank(b)
    else
      match a
      case IntCell(x) => x <= b.n
      case DateCell(x) => x <= b.ticks
      case TextCell(x) => StringLeq(x, b.text)
  }

  lemma CellOrder(a: Cell, b: Cell, c: Cell)
    ensures CellLeq(a, b) || CellLeq(b, a)
    ensures CellLeq(a, b) && CellLeq(b, c) ==> CellLeq(a, c)
  {
    if a.TextCell? && b.TextCell? {
      StringLeqTotal(a.text, b.text);
      if c.TextCell? && CellLeq(a, b) && CellLeq(b, c) {
        StringLeqTransitive(a.text, b.text, c.text);
      }
    }
  }

  /** The cell of column col, or an empty text when the record is shorter. */
  function At(r: seq<Cell>, col: int): Cell
  {
    if 0 <= col < |r| then r[col] else TextCell("")
  }

  /** Rows compared on the key columns in turn: the first column where they differ decides. */
  predicate RecordLeq(keys: seq<int>, a: seq<Cell>, b: seq<Cell>)
  {
    if |keys| == 0 then true
    else
      var x := At(a, keys[0]);
      var y := At(b, keys[0]);
      if !CellLeq(y, x) then true
      else if !CellLeq(x, y) then false
      else RecordLeq(keys[1..], a, b)
  }

  lemma {:induction false} RecordLeqTotal(keys: seq<int>, a: seq<Cell>, b: seq<Cell>)
    ensures RecordLeq(keys, a, b) || RecordLeq(keys, b, a)
  {
    if |keys| > 0 {
      CellOrder(At(a, keys[0]), At(b, keys[0]), At(a, keys[0]));
      RecordLeqTotal(keys[1..], a, b);
    }
  }

  lemma {:induction false} RecordLeqTransitive(keys: seq<int>, a: seq<Cell>, b: seq<Cell>, c: seq<Cell>)
    requires RecordLeq(keys, a, b) && RecordLeq(keys, b, c)
    ensures RecordLeq(keys, a, c)
  {
    if |keys| > 0 {
      var x, y, z := At(a, keys[0]), At(b, keys[0]), At(c, keys[0]);
      CellOrder(x, y, z);
      CellOrder(y, z, x);
      CellOrder(z, x, y);
      CellOrder(y, x, z);
      CellOrder(x, z, y);
      CellOrder(z, y, x);
      if CellLeq(y, x) && CellLeq(x, y) && CellLeq(z, y) && CellLeq(y, z) {
        RecordLeqTransitive(keys[1..], a, b, c);
      }
    }
  }

  /** The comparer of OrderBy(first key).ThenBy(second key)... */
  function Comparer(keys: seq<int>): (seq<Cell>, seq<Cell>) -> bool
  {
    (a, b) => RecordLeq(keys, a, b)
  }

  lemma RecordOrder(keys: seq<int>)
    ensures TotalPreorder(Comparer(keys))
  {
    forall a, b
      ensures RecordLeq(keys, a, b) || RecordLeq(keys, b, a)
    {
      RecordLeqTotal(keys, a, b);
    }
    forall a, b, c | RecordLeq(keys, a, b) && RecordLeq(keys, b, c)
      ensures RecordLeq(keys, a, c)
    {
      RecordLeqTransitive(keys, a, b, c);
    }
  }

  // ---------------------------------------------------------------- sortData

  /** The records as a plain list, or an ordered sequence with its sort keys, primary first. */
  datatype Ordering = Unordered | OrderedBy(keys: seq<int>)

  /**
   * sortData(content, fieldName, firstSort): a known field starts a new order (city adds id as
   * a tie-break) on the first call and adds a key later; a later key on a plain list is an invalid
   * cast; an unknown field leaves the content as it is.
   */
  function SortData(content: Ordering, fieldName: string, firstSort: bool): (r: Result<Ordering>)
    ensures r.Throw? ==> r.error == InvalidCast && !firstSort && content.Unordered?
    ensures ColumnOf(fieldName) < 0 ==> r == Ok(content)
  {
    var col := ColumnOf(fieldName);
    if col < 0 then Ok(content)
    else if firstSort then Ok(OrderedBy(if fieldName == "city" then [col, 0] else [col]))
    else if content.Unordered? then Throw(InvalidCast)
    else Ok(OrderedBy(content.keys + [col]))
  }

  /** The ordering after sortData has been applied to the first n order-by fields. */
  function SortChain(fields: seq<string>, n: nat): Result<Ordering>
    requires n <= |fields|
  {
    if n == 0 then Ok(Unordered)
    else
      var content :- SortChain(fields, n - 1);
      SortData(content, fields[n - 1], n - 1 == 0)
  }

  /** The column numbers of known fields. */
  function KeyColumns(fields: seq<string>): seq<int>
  {
    if |fields| == 0 then []
    else KeyColumns(fields[..|fields| - 1]) + [ColumnOf(fields[|fields| - 1])]
  }

  /** A property of the record. */
  predicate Known(f: string)
  {
    ColumnOf(f) >= 0
  }

  predicate AllKnown(fields: seq<string>)
  {
    forall k :: 0 <= k < |fields| ==> Known(fields[k])
  }

  lemma SortChainStep(fields: seq<string>, n: nat, keys: seq<int>)
    requires 2 <= n <= |fields| && Known(fields[n - 1])
    requires SortChain(fields, n - 1) == Ok(OrderedBy(keys))
    ensures SortChain(fields, n) == Ok(OrderedBy(keys + [ColumnOf(fields[n - 1])]))
  {
  }

  /** The sort keys of known fields: their columns in order, with id right after a leading city. */
  function ExpectedKeys(fields: seq<string>, n: nat): seq<int>
    requires 1 <= n <= |fields|
  {
    if fields[0] == "city" then [2, 0] + KeyColumns(fields[1..n]) else KeyColumns(fields[..n])
  }

  lemma ExpectedKeysStep(fields: seq<string>, n: nat)
    requires 2 <= n <= |fields|
    ensures ExpectedKeys(fields, n) == ExpectedKeys(fields, n - 1) + [ColumnOf(fields[n - 1])]
  {
    assert fields[1..n][..n - 2] == fields[1..n - 1];
    assert fields[..n][..n - 1] == fields[..n - 1];
  }

  lemma SortFirstCity()
    ensures SortData(Unordered, "city", true) == Ok(OrderedBy([2, 0]))
  {
    assert ColumnOf("city") == 2;
  }

  lemma SortFirstOther(f: string)
    requires f != "city" && Known(f)
    ensures SortData(Unordered, f, true) == Ok(OrderedBy([ColumnOf(f)]))
  {
  }

  lemma SortChainFirstCity(fields: seq<string>)
    requires 1 <= |fields| && fields[0] == "city"
    ensures SortChain(fields, 1) == Ok(OrderedBy([2, 0]))
    ensures ExpectedKeys(fields, 1) == [2, 0]
  {
    SortFirstCity();
    assert SortChain(fields, 1) == SortData(Unordered, "city", true);
    assert KeyColumns(fields[1..1]) == [];
  }

  lemma SortChainFirstOther(fields: seq<string>)
    requires 1 <= |fields| && fields[0] != "city" && Known(fields[0])
    ensures SortChain(fields, 1) == Ok(OrderedBy([ColumnOf(fields[0])]))
    ensures ExpectedKeys(fields, 1) == [ColumnOf(fields[0])]
  {
    var f := fields[0];
    SortFirstOther(f);
    assert SortChain(fields, 1) == SortData(Unordered, f, true);
    assert fields[..1] == [f];
    assert KeyColumns([f]) == KeyColumns([]) + [ColumnOf(f)];
  }

  lemma SortChainFirst(fields: seq<string>)
    requires 1 <= |fields| && Known(fields[0])
    ensures SortChain(fields, 1) == Ok(OrderedBy(ExpectedKeys(fields, 1)))
  {
    if fields[0] == "city" {
      SortChainFirstCity(fields);
    } else {
      SortChainFirstOther(fields);
    }
  }

  /**
   * With every field known, the chain raises nothing and sorts on the fields in order, with id
   * inserted right after a leading city.
   */
  lemma {:induction false} SortChainKnown(fields: seq<string>, n: nat)
    requires 1 <= n <= |fields| && AllKnown(fields)
    ensures SortChain(fields, n) == Ok(OrderedBy(ExpectedKeys(fields, n)))
  {
    if n == 1 {
      SortChainFirst(fields);
    } else {
      SortChainKnown(fields, n - 1);
      SortChainStep(fields, n, ExpectedKeys(fields, n - 1));
      ExpectedKeysStep(fields, n);
    }
  }

  /** A first field the record does not have leaves a plain list, and a known second field then fails. */
  lemma UnknownFirstField(fields: seq<string>)
    requires |fields| >= 2 && !Known(fields[0]) && Known(fields[1])
    ensures SortChain(fields, 2) == Throw(InvalidCast)
  {
    assert SortChain(fields, 1) == Ok(Unordered);
  }

  /** The records in the order the chain gives; a plain list keeps file order. */
  function Arrange(content: Ordering, records: seq<seq<Cell>>): seq<seq<Cell>>
  {
    match content
    case Unordered => records
    case OrderedBy(keys) => SortBy(records, Comparer(keys))
  }

  /** The arranged records are the input records, sorted on the keys, ties in file order. */
  lemma ArrangeSorts(keys: seq<int>, records: seq<seq<Cell>>, z: seq<Cell>)
    ensures var out := Arrange(OrderedBy(keys), records);
            && multiset(out) == multiset(records)
            && Sorted(out, Comparer(keys))
            && Ties(out, z, Comparer(keys)) == Ties(records, z, Comparer(keys))
  {
    RecordOrder(keys);
    SortBySorted(records, Comparer(keys));
    SortByStable(records, z, Comparer(keys));
  }
}
