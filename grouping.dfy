/**
 * The per-key running totals of a grouped aggregate: a dictionary from group value to
 * (sum, min, max, count), grown one data row at a time by AddValue.
 */
module Grouping {
  import opened Int32
  import opened Sorting

  /** The running totals of one key. */
  datatype Acc = Acc(sum: int, min: int, max: int, count: int)

  /** The totals of a key's first value. */
  function First(v: int): Acc
  {
    Acc(v, v, v, 1)
  }

  /** One more value: unchecked Int32 sum, the smaller min, the larger max, one more row. */
  function Fold(a: Acc, v: int): Acc
  {
    Acc(Wrap(a.sum + v), if a.min > v then v else a.min, if a.max < v then v else a.max, a.count + 1)
  }

  /** The table after adding value v under key. */
  function Add(m: map<string, Acc>, key: string, v: int): map<string, Acc>
  {
    m[key := if key in m then Fold(m[key], v) else First(v)]
  }

  /** The table built from (key, value) pairs added in order. */
  function Accumulate(pairs: seq<(string, int)>): map<string, Acc>
  {
    if |pairs| == 0 then map[]
    else
      var last := pairs[|pairs| - 1];
      Add(Accumulate(pairs[..|pairs| - 1]), last.0, last.1)
  }

  /** The values added under key, in order. */
  function ValuesFor(pairs: seq<(string, int)>, key: string): (vs: seq<int>)
    ensures |vs| <= |pairs|
  {
    if |pairs| == 0 then []
    else
      var last := pairs[|pairs| - 1];
      ValuesFor(pairs[..|pairs| - 1], key) + (if last.0 == key then [last.1] else [])
  }

  function SeqSum(vs: seq<int>): int
  {
    if |vs| == 0 then 0 else SeqSum(vs[..|vs| - 1]) + vs[|vs| - 1]
  }

  /** The least of the values. */
  function SeqMin(vs: seq<int>): (m: int)
    requires |vs| > 0
    ensures m in vs && forall k :: 0 <= k < |vs| ==> m <= vs[k]
  {
    if |vs| == 1 then vs[0]
    else
      var m := SeqMin(vs[..|vs| - 1]);
      assert forall k :: 0 <= k < |vs| - 1 ==> vs[..|vs| - 1][k] == vs[k];
      if m > vs[|vs| - 1] then vs[|vs| - 1] else m
  }

  /** The greatest of the values. */
  function SeqMax(vs: seq<int>): (m: int)
    requires |vs| > 0
    ensures m in vs && forall k :: 0 <= k < |vs| ==> vs[k] <= m
  {
    if |vs| == 1 then vs[0]
    else
      var m := SeqMax(vs[..|vs| - 1]);
      assert forall k :: 0 <= k < |vs| - 1 ==> vs[..|vs| - 1][k] == vs[k];
      if m < vs[|vs| - 1] then vs[|vs| - 1] else m
  }

  /** What the totals of a non-empty list of values should be. */
  function Summary(vs: seq<int>): Acc
    requires |vs| > 0
  {
    Acc(Wrap(SeqSum(vs)), SeqMin(vs), SeqMax(vs), |vs|)
  }

  /** Totals a key can hold: at least one row, min at most max, a sum in the Int32 range. */
  predicate WellFormed(a: Acc)
  {
    a.count >= 1 && a.min <= a.max && InRange(a.sum)
  }

  /** Wrapping after every addition is wrapping once at the end. */
  lemma WrapAdd(a: int, v: int)
    ensures Wrap(Wrap(a) + v) == Wrap(a + v)
  {
    var q := (a - MinValue) / Modulus;
    assert Wrap(a) + v - MinValue == (a + v - MinValue) - q * Modulus;
  }

  lemma SummaryFirst(x: int)
    requires InRange(x)
    ensures Summary([x]) == First(x)
  {
    assert [x][..0] == [];
    assert SeqSum([x]) == x;
    assert Wrap(x) == x;
  }

  /** The totals of one more value are the old totals with the value folded in. */
  lemma SummarySnoc(vs: seq<int>, x: int)
    requires |vs| > 0
    ensures Summary(vs + [x]) == Fold(Summary(vs), x)
  {
    var ws := vs + [x];
    assert ws[..|ws| - 1] == vs;
    WrapAdd(SeqSum(vs), x);
  }

  /**
   * After the pairs are added, a key is present exactly when some pair carries it, and its
   * totals are the wrapped sum, the min, the max and the number of its values.
   */
  lemma {:induction false} AccumulateMeaning(pairs: seq<(string, int)>, key: string)
    requires forall k :: 0 <= k < |pairs| ==> InRange(pairs[k].1)
    ensures key in Accumulate(pairs) <==> |ValuesFor(pairs, key)| > 0
    ensures key in Accumulate(pairs) ==> Accumulate(pairs)[key] == Summary(ValuesFor(pairs, key))
  {
    if |pairs| > 0 {
      var init := pairs[..|pairs| - 1];
      var last := pairs[|pairs| - 1];
      AccumulateMeaning(init, key);
      var before := ValuesFor(init, key);
      if last.0 == key {
        assert ValuesFor(pairs, key) == before + [last.1];
        if |before| > 0 {
          SummarySnoc(before, last.1);
        } else {
          assert before + [last.1] == [last.1];
          SummaryFirst(last.1);
        }
      } else {
        assert ValuesFor(pairs, key) == before + [];
        assert before + [] == before;
      }
    }
  }

  /** The values recorded under a key are values of the pairs. */
  lemma {:induction false} ValuesForInRange(pairs: seq<(string, int)>, key: string)
    requires forall k :: 0 <= k < |pairs| ==> InRange(pairs[k].1)
    ensures forall k :: 0 <= k < |ValuesFor(pairs, key)| ==> InRange(ValuesFor(pairs, key)[k])
  {
    if |pairs| > 0 {
      var init := pairs[..|pairs| - 1];
      assert forall k :: 0 <= k < |init| ==> init[k] == pairs[k];
      ValuesForInRange(init, key);
    }
  }

  /** Every key of a built table has at least one row and min at most max. */
  lemma AccumulateWellFormed(pairs: seq<(string, int)>, key: string)
    requires forall k :: 0 <= k < |pairs| ==> InRange(pairs[k].1)
    requires key in Accumulate(pairs)
    ensures WellFormed(Accumulate(pairs)[key])
  {
    AccumulateMeaning(pairs, key);
    var vs := ValuesFor(pairs, key);
    assert SeqMin(vs) <= vs[0] <= SeqMax(vs);
  }

  // ---------------------------------------------------------------- the dictionary as a value

  /** A dictionary of totals: its entries and its keys in enumeration order. */
  datatype Table = Table(entries: map<string, Acc>, keys: seq<string>)

  const EmptyTable := Table(map[], [])

  /** The keys list the entries once each, and every entry is well formed. */
  ghost predicate TableValid(t: Table)
  {
    && (forall k :: k in t.entries <==> k in t.keys)
    && Distinct(t.keys)
    && (forall k :: k in t.entries ==> WellFormed(t.entries[k]))
  }

  /** AddValue on a dictionary value: a new key is also appended to the enumeration order. */
  function AddPair(t: Table, key: string, v: int): Table
  {
    Table(Add(t.entries, key, v), if key in t.entries then t.keys else t.keys + [key])
  }

  /** The pairs added one after the other. */
  function AddAll(t: Table, pairs: seq<(string, int)>): Table
  {
    if |pairs| == 0 then t
    else
      var last := pairs[|pairs| - 1];
      AddPair(AddAll(t, pairs[..|pairs| - 1]), last.0, last.1)
  }

  /** OrderBy(x => x.Key).ToDictionary(...): the same entries, enumerated in ascending key order. */
  function SortedByKey(t: Table): Table
  {
    Table(t.entries, SortBy(t.keys, StringLeq))
  }

  lemma AddPairValid(t: Table, key: string, v: int)
    requires TableValid(t) && InRange(v)
    ensures TableValid(AddPair(t, key, v))
  {
    var t2 := AddPair(t, key, v);
    if key in t.entries {
      assert t2.entries[key] == Fold(t.entries[key], v);
    } else {
      assert t2.keys == t.keys + [key];
      assert forall i :: 0 <= i < |t.keys| ==> t.keys[i] in t.entries;
    }
  }

  /** Adding in-range values keeps a valid dictionary valid. */
  lemma {:induction false} AddAllValid(t: Table, pairs: seq<(string, int)>)
    requires TableValid(t)
    requires forall k :: 0 <= k < |pairs| ==> InRange(pairs[k].1)
    ensures TableValid(AddAll(t, pairs))
  {
    if |pairs| > 0 {
      var last := pairs[|pairs| - 1];
      AddAllValid(t, pairs[..|pairs| - 1]);
      AddPairValid(AddAll(t, pairs[..|pairs| - 1]), last.0, last.1);
    }
  }

  /** Keys are never removed, and every added key is present. */
  lemma {:induction false} AddAllKeys(t: Table, pairs: seq<(string, int)>)
    ensures forall k :: k in t.entries ==> k in AddAll(t, pairs).entries
    ensures forall i :: 0 <= i < |pairs| ==> pairs[i].0 in AddAll(t, pairs).entries
  {
    if |pairs| > 0 {
      var init := pairs[..|pairs| - 1];
      AddAllKeys(t, init);
      assert forall i :: 0 <= i < |init| ==> pairs[i] == init[i];
    }
  }

  /** Starting from an empty dictionary, the entries are the accumulated totals. */
  lemma {:induction false} AddAllAccumulate(pairs: seq<(string, int)>)
    ensures AddAll(EmptyTable, pairs).entries == Accumulate(pairs)
  {
    if |pairs| > 0 {
      AddAllAccumulate(pairs[..|pairs| - 1]);
    }
  }

  /** Reordering by key keeps the dictionary valid, and its keys come out ascending. */
  lemma SortedByKeyValid(t: Table)
    requires TableValid(t)
    ensures TableValid(SortedByKey(t))
    ensures Sorted(SortedByKey(t).keys, StringLeq)
    ensures multiset(SortedByKey(t).keys) == multiset(t.keys)
  {
    var sorted := SortBy(t.keys, StringLeq);
    SortByDistinct(t.keys, StringLeq);
    StringOrder();
    SortBySorted(t.keys, StringLeq);
    forall k
      ensures k in t.keys <==> k in sorted
    {
      assert k in t.keys <==> k in multiset(t.keys);
      assert k in sorted <==> k in multiset(sorted);
    }
  }

  /** Adding one more pair is AddPair on the table built so far. */
  lemma AddAllSnoc(t: Table, pairs: seq<(string, int)>, p: (string, int))
    ensures AddAll(t, pairs + [p]) == AddPair(AddAll(t, pairs), p.0, p.1)
  {
    assert (pairs + [p])[..|pairs|] == pairs;
  }

  /** The dictionary AddValue updates in place. */
  class GroupTable {
    var entries: map<string, Acc>
    var keys: seq<string>

    function State(): Table
      reads this
    {
      Table(entries, keys)
    }

    ghost predicate Valid()
      reads this
    {
      TableValid(State())
    }

    constructor()
      ensures Valid() && State() == EmptyTable
    {
      entries := map[];
      keys := [];
    }

    /**
     * The value is read with Int32.TryParse (0 when it is not a number); a new key starts its
     * totals with it, an existing key folds it in.  No other key changes.
     */
    method AddValue(key: string, value: string)
      requires Valid()
      modifies this
      ensures Valid()
      ensures State() == AddPair(old(State()), key, TryParse(value))
      ensures forall k :: k in old(entries) && k != key ==> entries[k] == old(entries)[k]
    {
      var val := TryParse(value);
      AddPairValid(State(), key, val);
      if key in entries {
        var current := entries[key];
        var dicValue := Acc(Wrap(current.sum + val),
                            if current.min > val then val else current.min,
                            if current.max < val then val else current.max,
                            current.count + 1);
        entries := entries[key := dicValue];
      } else {
        entries := entries[key := Acc(val, val, val, 1)];
        keys := keys + [key];
      }
    }

    /** Replaces the dictionary by a copy enumerated in ascending key order. */
    method OrderByKey()
      requires Valid()
      modifies this
      ensures Valid()
      ensures State() == SortedByKey(old(State()))
    {
      SortedByKeyValid(State());
      keys := SortBy(keys, StringLeq);
    }
  }
}
