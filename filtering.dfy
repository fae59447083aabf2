/**
 * The where-clause filter of the query processor: FilterContent tests one restriction on a
 * split data row, a condition group ANDs its restrictions, and the groups are folded into a
 * three-valued verdict (no verdict, true, false) that keeps a line unless it is false.
 */
module Filtering {
  import opened Wrappers
  import opened Text
  import Int32
  import opened Restrictions
  import opened QueryParameters
  import opened Projection

  /** The four ordering operators. */
  predicate IsOrdering(c: string)
  {
    c == "<" || c == ">" || c == "<=" || c == ">="
  }

  /** The operators that read the row's cell: the equality tests and the orderings. */
  predicate ReadsCell(c: string)
  {
    c == "=" || c == "==" || c == "!=" || c == "<>" || IsOrdering(c)
  }

  /** x c y for an ordering operator c. */
  predicate Compare(c: string, x: int, y: int)
  {
    if c == "<" then x < y
    else if c == ">" then x > y
    else if c == "<=" then x <= y
    else x >= y
  }

  /** Convert.ToDateTime: the instant the date parser gives, or a format error. */
  function ToDate(s: string, parseDate: string -> Option<int>): (r: Result<int>)
    ensures r.Ok? <==> parseDate(s).Some?
  {
    match parseDate(s)
    case Some(t) => Ok(t)
    case None => Throw(Format)
  }

  /**
   * FilterContent(restriction, row).  The column is the header position of the property name.
   * '=' and '==' test equality of the cell and the literal, '!=' and '<>' its negation.  An
   * ordering operator compares as dates when the literal reads as a date, otherwise as Int32
   * (cell first, then literal).  Any other operator is false without reading the cell.
   */
  function FilterContent(r: Restriction, row: seq<string>, header: seq<string>,
                         parseDate: string -> Option<int>): (v: Result<bool>)
    ensures v.Throw? ==> v.error == IndexOutOfRange || v.error == Format || v.error == Overflow
    ensures ReadsCell(r.condition) && !(0 <= GetIndexOfField(header, r.propertyName) < |row|)
            ==> v == Throw(IndexOutOfRange)
  {
    var index := GetIndexOfField(header, r.propertyName);
    var c := r.condition;
    if c == "==" || c == "=" then
      var cell :- CellAt(row, index);
      Ok(cell == r.propertyValue)
    else if c == "!=" || c == "<>" then
      var cell :- CellAt(row, index);
      Ok(cell != r.propertyValue)
    else if IsOrdering(c) then
      match parseDate(r.propertyValue)
      case Some(dt) =>
        var cell :- CellAt(row, index);
        var d :- ToDate(cell, parseDate);
        Ok(Compare(c, d, dt))
      case None =>
        var cell :- CellAt(row, index);
        var x :- Int32.Parse(cell);
        var y :- Int32.Parse(r.propertyValue);
        Ok(Compare(c, x, y))
    else
      Ok(false)
  }

  /** The negation of a verdict; an exception stays the same exception. */
  function Not(v: Result<bool>): Result<bool>
  {
    match v
    case Ok(b) => Ok(!b)
    case Throw(e) => Throw(e)
  }

  /** '!=' and '<>' are the negation of '=' and '==', which agree with each other. */
  lemma NotEqualNegatesEqual(name: string, value: string, row: seq<string>, header: seq<string>,
                             parseDate: string -> Option<int>)
    ensures FilterContent(Restriction(name, value, "!="), row, header, parseDate)
            == Not(FilterContent(Restriction(name, value, "="), row, header, parseDate))
    ensures FilterContent(Restriction(name, value, "<>"), row, header, parseDate)
            == FilterContent(Restriction(name, value, "!="), row, header, parseDate)
    ensures FilterContent(Restriction(name, value, "=="), row, header, parseDate)
            == FilterContent(Restriction(name, value, "="), row, header, parseDate)
  {
  }

  /** On a known column inside the row, '=' is equality of the cell and the literal. */
  lemma EqualMeaning(name: string, value: string, row: seq<string>, header: seq<string>,
                     parseDate: string -> Option<int>)
    requires name in header && |row| >= |header|
    ensures var i := GetIndexOfField(header, name);
            && header[i] == name
            && FilterContent(Restriction(name, value, "="), row, header, parseDate) == Ok(row[i] == value)
  {
  }

  /** '<' and '>=' are complementary: the same exception, or opposite verdicts. */
  lemma LessComplementsAtLeast(name: string, value: string, row: seq<string>, header: seq<string>,
                               parseDate: string -> Option<int>)
    ensures FilterContent(Restriction(name, value, ">="), row, header, parseDate)
            == Not(FilterContent(Restriction(name, value, "<"), row, header, parseDate))
  {
  }

  /** '>' and '<=' are complementary: the same exception, or opposite verdicts. */
  lemma GreaterComplementsAtMost(name: string, value: string, row: seq<string>, header: seq<string>,
                                 parseDate: string -> Option<int>)
    ensures FilterContent(Restriction(name, value, "<="), row, header, parseDate)
            == Not(FilterContent(Restriction(name, value, ">"), row, header, parseDate))
  {
  }

  /** An operator outside the eight is false for every row, without an exception. */
  lemma UnknownOperatorIsFalse(r: Restriction, row: seq<string>, header: seq<string>,
                               parseDate: string -> Option<int>)
    requires !ReadsCell(r.condition)
    ensures FilterContent(r, row, header, parseDate) == Ok(false)
  {
  }

  // ---------------------------------------------------------------- groups

  /**
   * The restrictions of one group ANDed left to right; once the running result is false the
   * remaining restrictions are not evaluated.
   */
  function GroupVerdict(rs: seq<Restriction>, row: seq<string>, header: seq<string>,
                        parseDate: string -> Option<int>): Result<bool>
  {
    if |rs| == 0 then Ok(true)
    else
      var before :- GroupVerdict(rs[..|rs| - 1], row, header, parseDate);
      if !before then Ok(false) else FilterContent(rs[|rs| - 1], row, header, parseDate)
  }

  /** A group is true exactly when every restriction is, and false only when some restriction is. */
  lemma {:induction false} GroupVerdictMeaning(rs: seq<Restriction>, row: seq<string>, header: seq<string>,
                                               parseDate: string -> Option<int>)
    ensures GroupVerdict(rs, row, header, parseDate) == Ok(true)
            <==> forall k :: 0 <= k < |rs| ==> FilterContent(rs[k], row, header, parseDate) == Ok(true)
    ensures GroupVerdict(rs, row, header, parseDate) == Ok(false)
            ==> exists k :: 0 <= k < |rs| && FilterContent(rs[k], row, header, parseDate) == Ok(false)
  {
    if |rs| > 0 {
      var init := rs[..|rs| - 1];
      GroupVerdictMeaning(init, row, header, parseDate);
      assert forall k :: 0 <= k < |init| ==> init[k] == rs[k];
    }
  }

  /**
   * The verdict of a row after the groups: empty groups are skipped; a group whose operator is
   * "or" is ORed into the running verdict (absent counting as false), any other group ANDed
   * (absent counting as true).
   */
  function RowVerdict(groups: seq<ConditionGroup>, row: seq<string>, header: seq<string>,
                      parseDate: string -> Option<int>): Result<Option<bool>>
  {
    if |groups| == 0 then Ok(None)
    else
      var acc :- RowVerdict(groups[..|groups| - 1], row, header, parseDate);
      var g := groups[|groups| - 1];
      if |g.ConditionsGroup| == 0 then Ok(acc)
      else
        var gv :- GroupVerdict(g.ConditionsGroup, row, header, parseDate);
        if g.Operator == "or" then Ok(Some(acc.GetOr(false) || gv))
        else Ok(Some(acc.GetOr(true) && gv))
  }

  /** Without a non-empty group there is no verdict. */
  lemma {:induction false} RowVerdictNoGroups(groups: seq<ConditionGroup>, row: seq<string>, header: seq<string>,
                                              parseDate: string -> Option<int>)
    requires forall k :: 0 <= k < |groups| ==> |groups[k].ConditionsGroup| == 0
    ensures RowVerdict(groups, row, header, parseDate) == Ok(None)
  {
    if |groups| > 0 {
      RowVerdictNoGroups(groups[..|groups| - 1], row, header, parseDate);
    }
  }

  /** An "or" group that holds makes the row's verdict true, whatever came before. */
  lemma OrGroupKeeps(groups: seq<ConditionGroup>, g: ConditionGroup, row: seq<string>, header: seq<string>,
                     parseDate: string -> Option<int>)
    requires RowVerdict(groups, row, header, parseDate).Ok?
    requires g.Operator == "or" && |g.ConditionsGroup| > 0
    requires GroupVerdict(g.ConditionsGroup, row, header, parseDate) == Ok(true)
    ensures RowVerdict(groups + [g], row, header, parseDate) == Ok(Some(true))
  {
    assert (groups + [g])[..|groups|] == groups;
  }

  /** An AND group that fails makes the row's verdict false, whatever came before. */
  lemma AndGroupDrops(groups: seq<ConditionGroup>, g: ConditionGroup, row: seq<string>, header: seq<string>,
                      parseDate: string -> Option<int>)
    requires RowVerdict(groups, row, header, parseDate).Ok?
    requires g.Operator != "or" && |g.ConditionsGroup| > 0
    requires GroupVerdict(g.ConditionsGroup, row, header, parseDate) == Ok(false)
    ensures RowVerdict(groups + [g], row, header, parseDate) == Ok(Some(false))
  {
    assert (groups + [g])[..|groups|] == groups;
  }

  /** A line is kept unless its verdict is false. */
  predicate Kept(v: Option<bool>)
  {
    v != Some(false)
  }

  // ---------------------------------------------------------------- lines

  /** The lines kept, in file order, and the exception that stopped the scan, if any. */
  datatype FilterRun = FilterRun(kept: seq<string>, error: Option<Exception>)

  /** FilterResult over the data lines: each line split on ',' and judged until one raises. */
  function FilterLines(lines: seq<string>, groups: seq<ConditionGroup>, header: seq<string>,
                       parseDate: string -> Option<int>): FilterRun
  {
    if |lines| == 0 then FilterRun([], None)
    else
      var init := FilterLines(lines[..|lines| - 1], groups, header, parseDate);
      var line := lines[|lines| - 1];
      if init.error.Some? then init
      else
        match RowVerdict(groups, Split(line, ','), header, parseDate)
        case Throw(e) => FilterRun(init.kept, Some(e))
        case Ok(v) => FilterRun(init.kept + (if Kept(v) then [line] else []), None)
  }

  /** The verdict of one line. */
  function LineVerdict(line: string, groups: seq<ConditionGroup>, header: seq<string>,
                       parseDate: string -> Option<int>): Result<Option<bool>>
  {
    RowVerdict(groups, Split(line, ','), header, parseDate)
  }

  /**
   * The scan finishes exactly when no line raises, and then a line is kept exactly when it is
   * one of the lines and its verdict is not false.
   */
  lemma {:induction false} FilterLinesMeaning(lines: seq<string>, groups: seq<ConditionGroup>, header: seq<string>,
                                              parseDate: string -> Option<int>)
    ensures var run := FilterLines(lines, groups, header, parseDate);
            && (run.error.None? <==> forall k :: 0 <= k < |lines| ==> LineVerdict(lines[k], groups, header, parseDate).Ok?)
            && (run.error.None? ==> forall x :: x in run.kept <==>
                  x in lines && Kept(LineVerdict(x, groups, header, parseDate).value))
            && |run.kept| <= |lines|
  {
    if |lines| > 0 {
      var init := lines[..|lines| - 1];
      var line := lines[|lines| - 1];
      FilterLinesMeaning(init, groups, header, parseDate);
      assert lines == init + [line];
      assert forall k :: 0 <= k < |init| ==> init[k] == lines[k];
    }
  }

  /** With no non-empty condition group every line is kept. */
  lemma {:induction false} FilterLinesNoGroups(lines: seq<string>, groups: seq<ConditionGroup>, header: seq<string>,
                                               parseDate: string -> Option<int>)
    requires forall k :: 0 <= k < |groups| ==> |groups[k].ConditionsGroup| == 0
    ensures FilterLines(lines, groups, header, parseDate) == FilterRun(lines, None)
  {
    if |lines| > 0 {
      var init := lines[..|lines| - 1];
      var line := lines[|lines| - 1];
      FilterLinesNoGroups(init, groups, header, parseDate);
      RowVerdictNoGroups(groups, Split(line, ','), header, parseDate);
      assert Kept(None);
      assert FilterLines(lines, groups, header, parseDate) == FilterRun(init + [line], None);
      InitLast(lines);
    }
  }

  /** Once a restriction raises, the later ones do not run: the group raises the same exception. */
  lemma {:induction false} GroupVerdictStops(rs: seq<Restriction>, m: nat, row: seq<string>, header: seq<string>,
                                             parseDate: string -> Option<int>, e: Exception)
    requires m <= |rs|
    requires GroupVerdict(rs[..m], row, header, parseDate) == Throw(e)
    ensures GroupVerdict(rs, row, header, parseDate) == Throw(e)
  {
    if m < |rs| {
      assert rs[..|rs| - 1][..m] == rs[..m];
      GroupVerdictStops(rs[..|rs| - 1], m, row, header, parseDate, e);
    } else {
      assert rs[..m] == rs;
    }
  }

  /** Once a group raises, the later groups do not run: the row raises the same exception. */
  lemma {:induction false} RowVerdictStops(groups: seq<ConditionGroup>, m: nat, row: seq<string>, header: seq<string>,
                                           parseDate: string -> Option<int>, e: Exception)
    requires m <= |groups|
    requires RowVerdict(groups[..m], row, header, parseDate) == Throw(e)
    ensures RowVerdict(groups, row, header, parseDate) == Throw(e)
  {
    if m < |groups| {
      assert groups[..|groups| - 1][..m] == groups[..m];
      RowVerdictStops(groups[..|groups| - 1], m, row, header, parseDate, e);
    } else {
      assert groups[..m] == groups;
    }
  }

  /** Once a line raises, the later lines are not read: the scan ends as it was. */
  lemma {:induction false} FilterLinesStops(lines: seq<string>, m: nat, groups: seq<ConditionGroup>, header: seq<string>,
                                            parseDate: string -> Option<int>)
    requires m <= |lines|
    requires FilterLines(lines[..m], groups, header, parseDate).error.Some?
    ensures FilterLines(lines, groups, header, parseDate) == FilterLines(lines[..m], groups, header, parseDate)
  {
    if m < |lines| {
      assert lines[..|lines| - 1][..m] == lines[..m];
      FilterLinesStops(lines[..|lines| - 1], m, groups, header, parseDate);
    } else {
      assert lines[..m] == lines;
    }
  }
}
