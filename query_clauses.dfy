/**
 * What each clause extractor of the query parser computes, stated as functions of the query
 * text, with lemmas that say what those functions mean for well-formed queries.
 */
module QueryClauses {
  import opened Wrappers
  import opened Text
  import opened Restrictions
  import opened AggregateFunctions

  /** The single-space tokens of a query, empty tokens kept. */
  function Tokens(q: string): (ts: seq<string>)
    ensures |ts| >= 1
  {
    Split(q, ' ')
  }

  /** Words joined by single spaces: the shape of a query typed with one space between words. */
  function Words(ws: seq<string>): string
  {
    Join(ws, " ")
  }

  predicate NoSpace(ws: seq<string>)
  {
    forall k :: 0 <= k < |ws| ==> ' ' !in ws[k]
  }

  /** A character absent from the pieces and the separator is absent from their join. */
  lemma {:induction false} JoinAvoids(ps: seq<string>, sep: string, c: char)
    requires c !in sep
    requires forall k :: 0 <= k < |ps| ==> c !in ps[k]
    ensures c !in Join(ps, sep)
  {
    if |ps| > 1 {
      JoinAvoids(ps[1..], sep, c);
    }
  }

  /** Tokenising words typed with single spaces gives back the words. */
  lemma TokensOfWords(ws: seq<string>)
    requires |ws| >= 1 && NoSpace(ws)
    ensures Tokens(Words(ws)) == ws
  {
    SplitJoin(ws, ' ');
  }

  // ---------------------------------------------------------------- file name

  /**
   * The token right after the first token equal to "from"; "" when no token is "from"; an index
   * error when "from" is the last token.
   */
  function FileNameSpec(q: string): Result<string>
  {
    var ts := Tokens(q);
    var i := FirstIndex(ts, "from");
    if i < 0 then Ok("")
    else if i + 1 < |ts| then Ok(ts[i + 1])
    else Throw(IndexOutOfRange)
  }

  /** In a query of single-spaced words, the file is the word after the first "from". */
  lemma FileNameOfWords(ws: seq<string>, i: nat)
    requires NoSpace(ws) && i + 1 < |ws|
    requires ws[i] == "from" && forall j :: 0 <= j < i ==> ws[j] != "from"
    ensures FileNameSpec(Words(ws)) == Ok(ws[i + 1])
  {
    TokensOfWords(ws);
  }

  // ---------------------------------------------------------------- selected fields

  function FieldsText(ts: seq<string>): string
  {
    if |ts| >= 2 then ts[1] else ""
  }

  /** Token 1 split on ','; [""] when the query has fewer than two tokens. */
  function FieldsSpec(q: string): seq<string>
  {
    Split(FieldsText(Tokens(q)), ',')
  }

  lemma NoSpaceCons(a: string, b: string, tail: seq<string>)
    requires ' ' !in a && ' ' !in b && NoSpace(tail)
    ensures NoSpace([a, b] + tail)
  {
    var ws := [a, b] + tail;
    forall k | 0 <= k < |ws|
      ensures ' ' !in ws[k]
    {
      if k >= 2 {
        assert ws[k] == tail[k - 2];
      }
    }
  }

  /** A select list written as comma-separated names is read back as those names, in order. */
  lemma FieldsOfWords(head: string, fields: seq<string>, tail: seq<string>)
    requires ' ' !in head && NoSpace(tail)
    requires |fields| >= 1 && NoSpace(fields)
    requires forall k :: 0 <= k < |fields| ==> ',' !in fields[k]
    ensures FieldsSpec(Words([head, Join(fields, ",")] + tail)) == fields
  {
    var joined := Join(fields, ",");
    JoinAvoids(fields, ",", ' ');
    var ws := [head, joined] + tail;
    NoSpaceCons(head, joined, tail);
    TokensOfWords(ws);
    assert FieldsText(ws) == joined;
    SplitJoin(fields, ',');
  }

  // ---------------------------------------------------------------- aggregate functions

  /**
   * The group the pattern \(([^)]*)\) captures: the text between the first '(' and the next ')',
   * or "" when no ')' follows the first '('.
   */
  function RegexField(p: string): (f: string)
    ensures ')' !in f
  {
    var i := IndexOf(p, "(");
    if i < 0 then ""
    else
      var rest := p[i + 1..];
      var j := IndexOf(rest, ")");
      if j < 0 then ""
      else
        NoCharBefore(rest, ')', j);
        rest[..j]
  }

  /** Before the first occurrence of c, c does not occur. */
  lemma NoCharBefore(s: string, c: char, j: int)
    requires 0 <= j <= |s| && forall k :: 0 <= k < j ==> !OccursAt(s, [c], k)
    ensures c !in s[..j]
  {
    forall k | 0 <= k < j
      ensures s[..j][k] != c
    {
      assert !OccursAt(s, [c], k);
      assert s[k..k + 1] == [s[k]];
    }
  }

  /** The aggregates of the comma pieces: a piece whose first '(' is at index 0 or absent is skipped. */
  function AggregatesOf(pieces: seq<string>): (r: seq<AggregateFunction>)
    ensures |r| <= |pieces|
  {
    if |pieces| == 0 then []
    else
      var p := pieces[0];
      var i := IndexOf(p, "(");
      if i <= 0 then AggregatesOf(pieces[1..])
      else [AggregateFunction(RegexField(p), p[..i])] + AggregatesOf(pieces[1..])
  }

  /** The aggregates of token 1; a query of one token makes the loop run over null. */
  function AggregatesSpec(q: string): Result<seq<AggregateFunction>>
  {
    var ts := Tokens(q);
    if |ts| < 2 then Throw(NullReference) else Ok(AggregatesOf(Split(ts[1], ',')))
  }

  /** How an aggregate is written in a select list: function(field). */
  function Render(a: AggregateFunction): string
  {
    a.functionName + "(" + a.field + ")"
  }

  predicate WellFormedAggregate(a: AggregateFunction)
  {
    |a.functionName| > 0 && '(' !in a.functionName && ')' !in a.field
    && ',' !in a.functionName && ',' !in a.field && ' ' !in a.functionName && ' ' !in a.field
  }

  function RenderAll(aggs: seq<AggregateFunction>): (r: seq<string>)
    ensures |r| == |aggs| && forall k :: 0 <= k < |aggs| ==> r[k] == Render(aggs[k])
  {
    seq(|aggs|, k requires 0 <= k < |aggs| => Render(aggs[k]))
  }

  /** The first index of c is i when s[i] is c and c does not occur before i. */
  lemma IndexOfChar(s: string, c: char, i: nat)
    requires i < |s| && s[i] == c && c !in s[..i]
    ensures IndexOf(s, [c]) == i
  {
    assert OccursAt(s, [c], i);
    forall j | 0 <= j < i
      ensures !OccursAt(s, [c], j)
    {
      assert s[..i][j] == s[j];
    }
  }

  /** In function(field), the first '(' ends the function name and the captured group is the field. */
  lemma RenderParses(a: AggregateFunction)
    requires WellFormedAggregate(a)
    ensures IndexOf(Render(a), "(") == |a.functionName| > 0
    ensures Render(a)[..|a.functionName|] == a.functionName
    ensures RegexField(Render(a)) == a.field
  {
    var p := Render(a);
    var n := |a.functionName|;
    assert p[..n] == a.functionName;
    IndexOfChar(p, '(', n);
    var rest := p[n + 1..];
    assert rest == a.field + ")";
    assert rest[..|a.field|] == a.field;
    IndexOfChar(rest, ')', |a.field|);
    assert RegexField(p) == a.field;
  }

  lemma {:induction false} AggregatesOfRendered(aggs: seq<AggregateFunction>)
    requires forall k :: 0 <= k < |aggs| ==> WellFormedAggregate(aggs[k])
    ensures AggregatesOf(RenderAll(aggs)) == aggs
  {
    if |aggs| > 0 {
      RenderParses(aggs[0]);
      AggregatesOfRendered(aggs[1..]);
      assert RenderAll(aggs)[1..] == RenderAll(aggs[1..]);
    }
  }

  /** Plain field names, without '(', contribute no aggregate. */
  lemma {:induction false} AggregatesOfPlainFields(pieces: seq<string>)
    requires forall k :: 0 <= k < |pieces| ==> '(' !in pieces[k]
    ensures AggregatesOf(pieces) == []
  {
    if |pieces| > 0 {
      var i := IndexOf(pieces[0], "(");
      AggregatesOfPlainFields(pieces[1..]);
    }
  }

  /** A select list of aggregates written as function(field) is read back as those aggregates. */
  lemma AggregatesOfWords(head: string, aggs: seq<AggregateFunction>, tail: seq<string>)
    requires ' ' !in head && NoSpace(tail) && |aggs| >= 1
    requires forall k :: 0 <= k < |aggs| ==> WellFormedAggregate(aggs[k])
    ensures AggregatesSpec(Words([head, Join(RenderAll(aggs), ",")] + tail)) == Ok(aggs)
  {
    var rs := RenderAll(aggs);
    forall k | 0 <= k < |rs|
      ensures ' ' !in rs[k] && ',' !in rs[k]
    {
      assert rs[k] == aggs[k].functionName + "(" + aggs[k].field + ")";
    }
    JoinAvoids(rs, ",", ' ');
    TokensOfWords([head, Join(rs, ",")] + tail);
    SplitJoin(rs, ',');
    AggregatesOfRendered(aggs);
  }

  // ---------------------------------------------------------------- restrictions

  /** The where-text builder: every token followed by one space. */
  function WhereText(ws: seq<string>): (t: string)
    ensures |t| >= |ws|
  {
    if |ws| == 0 then "" else WhereText(ws[..|ws| - 1]) + ws[|ws| - 1] + " "
  }

  /** Each piece trimmed, in place. */
  function TrimEach(ps: seq<string>): (r: seq<string>)
    ensures |r| == |ps| && forall k :: 0 <= k < |ps| ==> r[k] == Trim(ps[k])
  {
    seq(|ps|, k requires 0 <= k < |ps| => Trim(ps[k]))
  }

  /**
   * The condition pieces of the where-text: split on "and" and trimmed when "and" occurs at an
   * index above 1; otherwise split on "or", untrimmed, when "or" does; otherwise the whole text.
   */
  function Conditions(cond: string): (cs: seq<string>)
    ensures |cs| >= 1
  {
    if IndexOf(cond, "and") > 1 then TrimEach(SplitOn(cond, "and"))
    else if IndexOf(cond, "or") > 1 then SplitOn(cond, "or")
    else [cond]
  }

  /** Restriction(token 0, value = token 2, condition = token 1); fewer than 3 tokens is an index error. */
  function ToRestriction(cf: seq<string>): Result<Restriction>
  {
    if |cf| < 3 then Throw(IndexOutOfRange) else Ok(Restriction(cf[0], cf[2], cf[1]))
  }

  /** The two restrictions of a piece split on "or": the text before it and the trimmed text after it. */
  function OrPair(p: string): (r: Result<seq<Restriction>>)
    requires IndexOf(p, "or") > 1
    ensures r.Ok? ==> |r.value| == 2
    ensures r.Throw? ==> r.error == IndexOutOfRange
  {
    var parts := SplitOn(p, "or");
    SplitOnSecondPiece(p, "or");
    var first :- ToRestriction(Split(parts[0], ' '));
    var second :- ToRestriction(Split(Trim(parts[1]), ' '));
    Ok([first, second])
  }

  /**
   * The restrictions of the pieces.  The first piece holding "or" at an index above 1 is split on
   * "or" into two restrictions (the second part trimmed); every other piece gives one.
   */
  function RestrictionsOf(conds: seq<string>, orSplitDone: bool): (r: Result<seq<Restriction>>)
    ensures r.Ok? ==> |conds| <= |r.value| <= |conds| + (if orSplitDone then 0 else 1)
    ensures r.Throw? ==> r.error == IndexOutOfRange
  {
    if |conds| == 0 then Ok([])
    else
      var p := conds[0];
      if !orSplitDone && IndexOf(p, "or") > 1 then
        var pair :- OrPair(p);
        var rest :- RestrictionsOf(conds[1..], true);
        Ok(pair + rest)
      else
        var one :- ToRestriction(Split(p, ' '));
        var rest :- RestrictionsOf(conds[1..], orSplitDone);
        Ok([one] + rest)
  }

  function RestrictionsOfText(cond: string): Result<seq<Restriction>>
  {
    RestrictionsOf(Conditions(cond), false)
  }

  /** The restrictions of a query: none when it has at most five tokens. */
  function RestrictionsSpec(q: string): Result<seq<Restriction>>
  {
    var ts := Tokens(q);
    if |ts| <= 5 then Ok([]) else RestrictionsOfText(Trim(WhereText(ts[5..])))
  }

  /**
   * Pieces none of which holds "or" past index 1 give one restriction each: the k-th is the
   * restriction of the k-th piece's words, and the list is read exactly when every piece is.
   */
  lemma {:induction false} OnePerPiece(conds: seq<string>, orSplitDone: bool)
    requires forall k :: 0 <= k < |conds| ==> IndexOf(conds[k], "or") <= 1
    ensures var r := RestrictionsOf(conds, orSplitDone);
            && (r.Ok? <==> forall k :: 0 <= k < |conds| ==> ToRestriction(Split(conds[k], ' ')).Ok?)
            && (r.Ok? ==> |r.value| == |conds|
                          && forall k :: 0 <= k < |conds| ==> ToRestriction(Split(conds[k], ' ')) == Ok(r.value[k]))
  {
    if |conds| > 0 {
      var tail := conds[1..];
      assert forall k :: 0 <= k < |tail| ==> tail[k] == conds[k + 1];
      OnePerPiece(tail, orSplitDone);
      var r := RestrictionsOf(conds, orSplitDone);
      var one := ToRestriction(Split(conds[0], ' '));
      var rest := RestrictionsOf(tail, orSplitDone);
      if one.Ok? && rest.Ok? {
        assert r.value == [one.value] + rest.value;
      } else if one.Ok? {
        var k :| 0 <= k < |tail| && !ToRestriction(Split(tail[k], ' ')).Ok?;
        assert !ToRestriction(Split(conds[k + 1], ' ')).Ok?;
      }
    }
  }

  /**
   * Only a where-text split on "and" can have a piece split again on "or": without "and" past
   * index 1 there is one restriction per piece.
   */
  lemma OrSplitNeedsAnd(cond: string)
    requires IndexOf(cond, "and") <= 1
    ensures var r := RestrictionsOfText(cond);
            r.Ok? ==> |r.value| == |Conditions(cond)|
  {
    OnePerPiece(Conditions(cond), false);
  }

  /** The text of one comparison, "name op value". */
  function Comparison(name: string, op: string, value: string): string
  {
    name + " " + op + " " + value
  }

  lemma ComparisonWords(name: string, op: string, value: string)
    requires ' ' !in name && ' ' !in op && ' ' !in value
    ensures Split(Comparison(name, op, value), ' ') == [name, op, value]
  {
    assert Join([name, op, value], " ") == Comparison(name, op, value) by {
      assert Join([op, value], " ") == op + " " + value;
      assert [name, op, value][1..] == [op, value];
    }
    SplitJoin([name, op, value], ' ');
  }

  /** A single comparison "name op value" gives Restriction(name, value, op). */
  lemma SingleRestriction(name: string, op: string, value: string)
    requires ' ' !in name && ' ' !in op && ' ' !in value
    requires IndexOf(Comparison(name, op, value), "and") <= 1
    requires IndexOf(Comparison(name, op, value), "or") <= 1
    ensures RestrictionsOfText(Comparison(name, op, value)) == Ok([Restriction(name, value, op)])
  {
    var text := Comparison(name, op, value);
    ComparisonWords(name, op, value);
    assert Conditions(text) == [text];
    assert [text][0] == text;
    OnePerPiece([text], false);
    var r := RestrictionsOf([text], false);
    assert r.Ok? && |r.value| == 1;
    assert Ok(r.value[0]) == Ok(Restriction(name, value, op));
    assert r.value == [Restriction(name, value, op)];
  }

  /** When p holds no "and", the first "and" of "p and q" is the connective right after p and its space. */
  lemma AndAfterPiece(p: string, q: string)
    requires IndexOf(p, "and") == -1
    ensures IndexOf(p + " and " + q, "and") == |p| + 1
  {
    var t := p + " and " + q;
    forall j | 0 <= j < |p| + 1
      ensures !OccursAt(t, "and", j)
    {
      if j + 3 <= |p| {
        assert t[j..j + 3] == p[j..j + 3];
        assert !OccursAt(p, "and", j);
      } else if j + 3 <= |t| {
        assert t[j..j + 3][|p| - j] == ' ';
      }
    }
    assert t[|p| + 1..|p| + 4] == "and";
    IndexOfIs(t, "and", |p| + 1);
  }

  /** A leading space adds no "and" to a text that holds none. */
  lemma NoAndAfterSpace(q: string)
    requires IndexOf(q, "and") == -1
    ensures IndexOf(" " + q, "and") == -1
  {
    var t := " " + q;
    forall j | OccursAt(t, "and", j)
      ensures false
    {
      assert t[j] == 'a' by {
        assert t[j..j + 3][0] == t[j];
      }
      if j > 0 {
        assert t[j..j + 3] == q[j - 1..j - 1 + 3];
        assert OccursAt(q, "and", j - 1);
      }
    }
  }

  /** A comparison of words without white space is not changed by Trim, nor by a space trimmed off either side. */
  lemma TrimComparison(name: string, op: string, value: string)
    requires |name| >= 1 && NoWhiteSpace(name) && |value| >= 1 && NoWhiteSpace(value)
    ensures var c := Comparison(name, op, value);
            Trim(c + " ") == c && Trim(" " + c) == c
  {
    var c := Comparison(name, op, value);
    assert c[0] == name[0] && !IsWhiteSpace(c[0]);
    assert c[|c| - 1] == value[|value| - 1] && !IsWhiteSpace(c[|c| - 1]);
    assert (c + " ")[..|c|] == c;
    assert TrimStart(c + " ") == c + " ";
    assert TrimEnd(c + " ") == TrimEnd(c) == c;
    assert (" " + c)[1..] == c;
    assert TrimStart(" " + c) == TrimStart(c) == c;
  }

  /**
   * Two comparisons joined by "and", "n1 o1 v1 and n2 o2 v2", give the two restrictions
   * Restriction(n1, v1, o1) and Restriction(n2, v2, o2), in that order.
   */
  lemma TwoRestrictions(n1: string, o1: string, v1: string, n2: string, o2: string, v2: string)
    requires |n1| >= 1 && NoWhiteSpace(n1) && NoWhiteSpace(o1) && |v1| >= 1 && NoWhiteSpace(v1)
    requires |n2| >= 1 && NoWhiteSpace(n2) && NoWhiteSpace(o2) && |v2| >= 1 && NoWhiteSpace(v2)
    requires IndexOf(Comparison(n1, o1, v1), "and") == -1 && IndexOf(Comparison(n2, o2, v2), "and") == -1
    requires IndexOf(Comparison(n1, o1, v1), "or") <= 1 && IndexOf(Comparison(n2, o2, v2), "or") <= 1
    ensures RestrictionsOfText(Comparison(n1, o1, v1) + " and " + Comparison(n2, o2, v2))
            == Ok([Restriction(n1, v1, o1), Restriction(n2, v2, o2)])
  {
    var p1 := Comparison(n1, o1, v1);
    var p2 := Comparison(n2, o2, v2);
    TrimComparison(n1, o1, v1);
    TrimComparison(n2, o2, v2);
    ConditionsOfAnd(p1, p2);
    ComparisonRestriction(n1, o1, v1);
    ComparisonRestriction(n2, o2, v2);
    TwoPieces(p1, p2, Restriction(n1, v1, o1), Restriction(n2, v2, o2));
  }

  /** The words of a comparison make the restriction Restriction(name, value, op). */
  lemma ComparisonRestriction(name: string, op: string, value: string)
    requires NoWhiteSpace(name) && NoWhiteSpace(op) && NoWhiteSpace(value)
    ensures ToRestriction(Split(Comparison(name, op, value), ' ')) == Ok(Restriction(name, value, op))
  {
    NoSpaceInWord(name);
    NoSpaceInWord(op);
    NoSpaceInWord(value);
    ComparisonWords(name, op, value);
  }

  /** Two pieces that are not or-split give their two restrictions, in order. */
  lemma TwoPieces(p1: string, p2: string, r1: Restriction, r2: Restriction)
    requires IndexOf(p1, "or") <= 1 && IndexOf(p2, "or") <= 1
    requires ToRestriction(Split(p1, ' ')) == Ok(r1) && ToRestriction(Split(p2, ' ')) == Ok(r2)
    ensures RestrictionsOf([p1, p2], false) == Ok([r1, r2])
  {
    var ps := [p1, p2];
    assert ps[0] == p1 && ps[1] == p2;
    OnePerPiece(ps, false);
    var r := RestrictionsOf(ps, false);
    assert r.Ok? && |r.value| == 2;
    assert Ok(r.value[0]) == Ok(r1) && Ok(r.value[1]) == Ok(r2);
    assert r.value == [r1, r2];
  }

  /** "p and q", with no "and" in p or q and each unchanged by trimming a space off, has the pieces p and q. */
  lemma ConditionsOfAnd(p: string, q: string)
    requires |p| >= 1 && IndexOf(p, "and") == -1 && IndexOf(q, "and") == -1
    requires Trim(p + " ") == p && Trim(" " + q) == q
    ensures Conditions(p + " and " + q) == [p, q]
  {
    var t := p + " and " + q;
    AndAfterPiece(p, q);
    SplitOnUnfold(t, "and");
    assert t[..|p| + 1] == p + " ";
    assert t[|p| + 4..] == " " + q;
    NoAndAfterSpace(q);
    assert SplitOn(" " + q, "and") == [" " + q];
    assert SplitOn(t, "and") == [p + " ", " " + q];
    assert TrimEach([p + " ", " " + q]) == [p, q];
  }

  // ---------------------------------------------------------------- logical operators

  predicate IsLogical(w: string)
  {
    w == "and" || w == "or"
  }

  /** The "and"/"or" words of ws, in order. */
  function KeepLogical(ws: seq<string>): (r: seq<string>)
    ensures |r| <= |ws| && forall k :: 0 <= k < |r| ==> IsLogical(r[k])
  {
    if |ws| == 0 then []
    else
      var w := ws[|ws| - 1];
      KeepLogical(ws[..|ws| - 1]) + (if IsLogical(w) then [w] else [])
  }

  /** The "and"/"or" tokens after the first "where", in order. */
  function LogicalOperatorsOf(ts: seq<string>): seq<string>
  {
    var w := FirstIndex(ts, "where");
    if w < 0 then [] else KeepLogical(ts[w + 1..])
  }

  /** The logical operators of a query; none at all makes ToList run on null. */
  function LogicalOperatorsSpec(q: string): Result<seq<string>>
  {
    var ops := LogicalOperatorsOf(Tokens(q));
    if |ops| == 0 then Throw(ArgumentNull) else Ok(ops)
  }

  /** A where clause whose connectives are all listed keeps them all, in order. */
  lemma {:induction false} KeepLogicalAll(ws: seq<string>)
    requires forall k :: 0 <= k < |ws| ==> IsLogical(ws[k])
    ensures KeepLogical(ws) == ws
  {
    if |ws| > 0 {
      KeepLogicalAll(ws[..|ws| - 1]);
    }
  }

  /** Each operator followed by a comma, as the operator string is built. */
  function Terminated(ops: seq<string>): string
  {
    if |ops| == 0 then "" else Terminated(ops[..|ops| - 1]) + ops[|ops| - 1] + ","
  }

  lemma {:induction false} TerminatedIsJoin(ops: seq<string>)
    ensures Terminated(ops) == Join(ops + [""], ",")
  {
    if |ops| > 0 {
      var init := ops[..|ops| - 1];
      TerminatedIsJoin(init);
      JoinSnoc(init + [""], ops[|ops| - 1]);
      assert init + [ops[|ops| - 1]] + [""] == ops + [""];
    }
  }

  /** Extending the last piece of a join extends the join. */
  lemma {:induction false} JoinSnoc(ps: seq<string>, x: string)
    requires |ps| >= 1 && ps[|ps| - 1] == ""
    ensures Join(ps[..|ps| - 1] + [x] + [""], ",") == Join(ps, ",") + x + ","
  {
    if |ps| == 1 {
      assert ps[..0] + [x] + [""] == [x, ""];
      assert [x, ""][1..] == [""];
    } else {
      var qs := ps[..|ps| - 1] + [x] + [""];
      assert qs[1..] == ps[1..][..|ps| - 2] + [x] + [""];
      JoinSnoc(ps[1..], x);
    }
  }

  lemma {:induction false} RemoveEmptyLast(ops: seq<string>)
    requires forall k :: 0 <= k < |ops| ==> ops[k] != ""
    ensures RemoveEmpty(ops + [""]) == ops
  {
    if |ops| > 0 {
      assert (ops + [""])[1..] == ops[1..] + [""];
      RemoveEmptyLast(ops[1..]);
    }
  }

  /** Splitting the built operator string on ',' and dropping empty entries gives the operators back. */
  lemma SplitTerminated(ops: seq<string>)
    requires forall k :: 0 <= k < |ops| ==> ops[k] != "" && ',' !in ops[k]
    ensures RemoveEmpty(Split(Terminated(ops), ',')) == ops
  {
    TerminatedIsJoin(ops);
    SplitJoin(ops + [""], ',');
    RemoveEmptyLast(ops);
  }

  /** The operators of a single-spaced where clause whose every word after "where" is a connective. */
  lemma LogicalOperatorsOfWords(pre: seq<string>, ops: seq<string>)
    requires NoSpace(pre) && "where" !in pre
    requires |ops| >= 1 && forall k :: 0 <= k < |ops| ==> IsLogical(ops[k])
    ensures LogicalOperatorsSpec(Words(pre + ["where"] + ops)) == Ok(ops)
  {
    var ws := pre + ["where"] + ops;
    TokensOfWords(ws);
    assert ws[|pre|] == "where";
    assert forall j :: 0 <= j < |pre| ==> ws[j] == pre[j];
    assert FirstIndex(ws, "where") == |pre|;
    assert ws[|pre| + 1..] == ops;
    KeepLogicalAll(ops);
  }

  // ---------------------------------------------------------------- order by and group by

  /** The comma pieces after the first "order by", trimmed; no "order by" at index 1 or later is an error. */
  function OrderBySpec(q: string): Result<seq<string>>
  {
    if IndexOf(q, "order by") < 1 then Throw(ArgumentNull)
    else
      SplitOnSecondPiece(q, "order by");
      Ok(TrimEach(Split(SplitOn(q, "order by")[1], ',')))
  }

  /** With a single "order by", the columns are the trimmed comma pieces of all the text after it. */
  lemma OrderByClause(q: string)
    requires IndexOf(q, "order by") >= 1
    requires IndexOf(q[IndexOf(q, "order by") + 8..], "order by") == -1
    ensures OrderBySpec(q) == Ok(TrimEach(Split(q[IndexOf(q, "order by") + 8..], ',')))
  {
    SplitOnSecondPiece(q, "order by");
  }

  /** Columns written with commas, with any white space around them, are read back trimmed. */
  lemma TrimmedColumns(ps: seq<string>)
    requires |ps| >= 1 && forall k :: 0 <= k < |ps| ==> ',' !in ps[k]
    ensures TrimEach(Split(Join(ps, ","), ',')) == TrimEach(ps)
  {
    SplitJoin(ps, ',');
  }

  /** A group column: the trimmed piece, cut to its first word when "order by" follows past index 1. */
  function GroupColumn(p: string): string
  {
    var t := Trim(p);
    if IndexOf(t, "order by") > 1 then Split(t, ' ')[0] else t
  }

  function GroupColumns(ps: seq<string>): (r: seq<string>)
    ensures |r| == |ps| && forall k :: 0 <= k < |ps| ==> r[k] == GroupColumn(ps[k])
  {
    seq(|ps|, k requires 0 <= k < |ps| => GroupColumn(ps[k]))
  }

  /** The group columns after the first "group by"; none when it is absent or at index 0. */
  function GroupBySpec(q: string): seq<string>
  {
    if IndexOf(q, "group by") < 1 then []
    else
      SplitOnSecondPiece(q, "group by");
      GroupColumns(Split(SplitOn(q, "group by")[1], ','))
  }

  /** With a single "group by", the columns come from the comma pieces of all the text after it. */
  lemma GroupByClause(q: string)
    requires IndexOf(q, "group by") >= 1
    requires IndexOf(q[IndexOf(q, "group by") + 8..], "group by") == -1
    ensures GroupBySpec(q) == GroupColumns(Split(q[IndexOf(q, "group by") + 8..], ','))
  {
    SplitOnOnce(q, "group by");
  }

  predicate NoWhiteSpace(s: string)
  {
    forall k :: 0 <= k < |s| ==> !IsWhiteSpace(s[k])
  }

  /** Trimming " c order by o" drops the leading space only. */
  lemma TrimGroupPiece(c: string, o: string)
    requires |c| >= 1 && NoWhiteSpace(c)
    requires |o| >= 1 && !IsWhiteSpace(o[|o| - 1])
    ensures Trim(" " + c + " order by " + o) == c + " order by " + o
  {
    var p := " " + c + " order by " + o;
    var t := c + " order by " + o;
    assert p[1..] == t;
    assert TrimStart(t) == t;
    assert TrimStart(p) == t;
    assert TrimEnd(t) == t;
  }

  lemma NoOrderByWithinColumn(c: string, o: string, j: int)
    requires NoWhiteSpace(c) && 0 <= j <= |c|
    ensures !OccursAt(c + " order by " + o, "order by", j)
  {
    var t := c + " order by " + o;
    if j + 8 <= |t| {
      var w := t[j..j + 8];
      if j + 5 < |c| {
        assert w[5] == c[j + 5];
        assert !IsWhiteSpace(c[j + 5]);
      } else if j + 5 == |c| {
        assert w[6] == t[|c| + 1] == 'o';
      } else {
        assert w[5] == t[j + 5] == " order by "[j + 5 - |c|];
      }
    }
  }

  /** In "c order by o" with c free of white space, "order by" first occurs right after c and its space. */
  lemma OrderByAfterColumn(c: string, o: string)
    requires |c| >= 1 && NoWhiteSpace(c)
    ensures IndexOf(c + " order by " + o, "order by") == |c| + 1
  {
    var t := c + " " + "order by" + " " + o;
    assert t == c + " order by " + o;
    var n := |c| + 1;
    assert t[n..n + 8] == "order by";
    forall j | 0 <= j < n
      ensures !OccursAt(t, "order by", j)
    {
      NoOrderByWithinColumn(c, o, j);
    }
    assert OccursAt(t, "order by", n);
    IndexOfIs(t, "order by", n);
  }

  /** The first word of "c rest", for c without a space, is c. */
  lemma FirstWord(c: string, rest: string)
    requires ' ' !in c
    ensures Split(c + " " + rest, ' ')[0] == c
  {
    assert c + " " + rest == c + [' '] + rest;
    SplitAtFirst(c, rest, ' ');
  }

  lemma GroupColumnCut(p: string)
    requires IndexOf(Trim(p), "order by") > 1
    ensures GroupColumn(p) == Split(Trim(p), ' ')[0]
  {
  }

  lemma NoSpaceInWord(c: string)
    requires NoWhiteSpace(c)
    ensures ' ' !in c
  {
    forall k | 0 <= k < |c|
      ensures c[k] != ' '
    {
      assert !IsWhiteSpace(c[k]);
    }
  }

  /** "group by c order by o": the group column is c, the order-by part is cut off. */
  lemma GroupColumnBeforeOrderBy(c: string, o: string)
    requires |c| >= 1 && NoWhiteSpace(c)
    requires |o| >= 1 && !IsWhiteSpace(o[|o| - 1])
    ensures GroupColumn(" " + c + " order by " + o) == c
  {
    var t := c + " order by " + o;
    TrimGroupPiece(c, o);
    OrderByAfterColumn(c, o);
    GroupColumnCut(" " + c + " order by " + o);
    NoSpaceInWord(c);
    assert t == c + " " + ("order by " + o);
    FirstWord(c, "order by " + o);
  }
}
