/**
 * The header of the CSV file and the projection of a data row onto the selected fields:
 * GetHeader, GetIndexOfField and GetSelectedValues of the query processor, with the header
 * and the row passed in as values.
 */
module Projection {
  import opened Wrappers
  import opened Text

  /** The file's first line split on ','; reading a line of an empty file gives null. */
  function HeaderOf(file: seq<string>): (r: Result<seq<string>>)
    ensures r.Throw? <==> |file| == 0
    ensures r.Ok? ==> Join(r.value, ",") == file[0]
  {
    if |file| == 0 then Throw(NullReference)
    else
      JoinSplit(file[0], ',');
      Ok(Split(file[0], ','))
  }

  /** row[index] on an array: -1 or an index past the end raises. */
  function CellAt(row: seq<string>, index: int): (r: Result<string>)
    ensures r.Ok? <==> 0 <= index < |row|
    ensures r.Ok? ==> r.value == row[index]
    ensures r.Throw? ==> r.error == IndexOutOfRange
  {
    if 0 <= index < |row| then Ok(row[index]) else Throw(IndexOutOfRange)
  }

  /** GetIndexOfField: the first header position holding the name, or -1 when no column has it. */
  function GetIndexOfField(header: seq<string>, field: string): (i: int)
    ensures -1 <= i < |header|
    ensures i >= 0 <==> field in header
    ensures i >= 0 ==> header[i] == field && field !in header[..i]
  {
    FirstIndex(header, field)
  }

  /** The header index of each requested field, in request order. */
  function Indexes(header: seq<string>, fields: seq<string>): (ixs: seq<int>)
    ensures |ixs| == |fields|
  {
    if |fields| == 0 then []
    else Indexes(header, fields[..|fields| - 1]) + [GetIndexOfField(header, fields[|fields| - 1])]
  }

  /** Where(x => x != -1): the indexes of the known fields, in order. */
  function KnownIndexes(ixs: seq<int>): (ks: seq<int>)
    ensures |ks| <= |ixs|
  {
    if |ixs| == 0 then []
    else KnownIndexes(ixs[..|ixs| - 1]) + (if ixs[|ixs| - 1] != -1 then [ixs[|ixs| - 1]] else [])
  }

  /** The row's values at the indexes, in order; the first index outside the row raises. */
  function Pick(row: seq<string>, ixs: seq<int>): (r: Result<seq<string>>)
    ensures r.Ok? ==> |r.value| == |ixs|
    ensures r.Throw? ==> r.error == IndexOutOfRange
  {
    if |ixs| == 0 then Ok([])
    else
      var init :- Pick(row, ixs[..|ixs| - 1]);
      var v :- CellAt(row, ixs[|ixs| - 1]);
      Ok(init + [v])
  }

  /** GetSelectedValues: the values of the known fields in request order, or the whole row when none is known. */
  function SelectedValues(row: seq<string>, header: seq<string>, fields: seq<string>): Result<seq<string>>
  {
    var ks := KnownIndexes(Indexes(header, fields));
    if |ks| == 0 then Ok(row) else Pick(row, ks)
  }

  lemma {:induction false} IndexesAt(header: seq<string>, fields: seq<string>)
    ensures forall k :: 0 <= k < |fields| ==> Indexes(header, fields)[k] == GetIndexOfField(header, fields[k])
  {
    if |fields| > 0 {
      IndexesAt(header, fields[..|fields| - 1]);
    }
  }

  /** With no -1 among them, every index is kept. */
  lemma {:induction false} KnownIndexesAll(ixs: seq<int>)
    requires forall k :: 0 <= k < |ixs| ==> ixs[k] != -1
    ensures KnownIndexes(ixs) == ixs
  {
    if |ixs| > 0 {
      KnownIndexesAll(ixs[..|ixs| - 1]);
      assert ixs[..|ixs| - 1] + [ixs[|ixs| - 1]] == ixs;
    }
  }

  /** With only -1 among them, nothing is kept. */
  lemma {:induction false} KnownIndexesNone(ixs: seq<int>)
    requires forall k :: 0 <= k < |ixs| ==> ixs[k] == -1
    ensures KnownIndexes(ixs) == []
  {
    if |ixs| > 0 {
      KnownIndexesNone(ixs[..|ixs| - 1]);
    }
  }

  /** Indexes inside the row pick exactly the values at those positions. */
  lemma {:induction false} PickInside(row: seq<string>, ixs: seq<int>)
    requires forall k :: 0 <= k < |ixs| ==> 0 <= ixs[k] < |row|
    ensures Pick(row, ixs).Ok?
    ensures forall k :: 0 <= k < |ixs| ==> Pick(row, ixs).value[k] == row[ixs[k]]
  {
    if |ixs| > 0 {
      PickInside(row, ixs[..|ixs| - 1]);
    }
  }

  /**
   * When every requested field is a column and the row is as wide as the header, the result
   * holds, in request order, the value under each requested column.
   */
  lemma SelectedAllKnown(row: seq<string>, header: seq<string>, fields: seq<string>)
    requires |fields| > 0
    requires forall k :: 0 <= k < |fields| ==> fields[k] in header
    requires |row| >= |header|
    ensures var r := SelectedValues(row, header, fields);
            && r.Ok? && |r.value| == |fields|
            && forall k :: 0 <= k < |fields| ==>
                 var i := GetIndexOfField(header, fields[k]);
                 header[i] == fields[k] && r.value[k] == row[i]
  {
    var ixs := Indexes(header, fields);
    IndexesAt(header, fields);
    KnownIndexesAll(ixs);
    PickInside(row, ixs);
  }

  /** When no requested field is a column, the whole row is returned. */
  lemma SelectedNoneKnown(row: seq<string>, header: seq<string>, fields: seq<string>)
    requires forall k :: 0 <= k < |fields| ==> fields[k] !in header
    ensures SelectedValues(row, header, fields) == Ok(row)
  {
    IndexesAt(header, fields);
    KnownIndexesNone(Indexes(header, fields));
  }

  /** The known indexes of two lists one after the other are those of each, in order. */
  lemma {:induction false} KnownIndexesAppend(a: seq<int>, b: seq<int>)
    ensures KnownIndexes(a + b) == KnownIndexes(a) + KnownIndexes(b)
  {
    if |b| > 0 {
      var init := b[..|b| - 1];
      KnownIndexesAppend(a, init);
      assert (a + b)[..|a + b| - 1] == a + init;
    } else {
      assert a + b == a;
    }
  }

  /** Once an index raises, the later ones are not read: the whole pick raises. */
  lemma {:induction false} PickStops(row: seq<string>, ixs: seq<int>, m: nat)
    requires m <= |ixs| && Pick(row, ixs[..m]).Throw?
    ensures Pick(row, ixs).Throw?
  {
    if m < |ixs| {
      assert ixs[..|ixs| - 1][..m] == ixs[..m];
      PickStops(row, ixs[..|ixs| - 1], m);
    } else {
      assert ixs[..m] == ixs;
    }
  }

  /** A known index outside the row makes the pick of the known indexes raise. */
  lemma KnownIndexOutside(row: seq<string>, ixs: seq<int>, j: int)
    requires 0 <= j < |ixs| && ixs[j] != -1 && !(0 <= ixs[j] < |row|)
    ensures |KnownIndexes(ixs)| > 0 && Pick(row, KnownIndexes(ixs)).Throw?
  {
    var pre := ixs[..j + 1];
    assert pre[..j] == ixs[..j];
    assert KnownIndexes(pre) == KnownIndexes(ixs[..j]) + [ixs[j]];
    assert Pick(row, KnownIndexes(pre)).Throw?;
    KnownIndexesAppend(pre, ixs[j + 1..]);
    assert pre + ixs[j + 1..] == ixs;
    var ks := KnownIndexes(ixs);
    assert ks[..|KnownIndexes(pre)|] == KnownIndexes(pre);
    PickStops(row, ks, |KnownIndexes(pre)|);
  }

  /** One more index: kept when it is not -1. */
  lemma KnownIndexesNext(ixs: seq<int>, j: nat)
    requires j < |ixs|
    ensures ixs[j] != -1 ==> KnownIndexes(ixs[..j + 1]) == KnownIndexes(ixs[..j]) + [ixs[j]]
    ensures ixs[j] == -1 ==> KnownIndexes(ixs[..j + 1]) == KnownIndexes(ixs[..j])
  {
    assert ixs[..j + 1][..j] == ixs[..j];
    assert KnownIndexes(ixs[..j]) + [] == KnownIndexes(ixs[..j]);
  }

  /** One more index inside the row picks one more value. */
  lemma PickNext(row: seq<string>, ks: seq<int>, vs: seq<string>, i: int)
    requires Pick(row, ks) == Ok(vs) && 0 <= i < |row|
    ensures Pick(row, ks + [i]) == Ok(vs + [row[i]])
  {
    assert (ks + [i])[..|ks|] == ks;
  }
}
