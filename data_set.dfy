/**
 * What a query returns: the rows of a DataSet, the keyed entries of a GroupDataSet (a
 * dictionary from string to object, enumerated in insertion order), or a marker for a
 * GetDataRow branch whose hard-coded column handling is not part of this model.
 */
module DataSets {
  import opened Wrappers
  import opened Sorting
  import opened Grouping

  /** The objects stored in a grouped data set. */
  datatype Value =
    | Texts(texts: seq<string>)   // a string array: [group key, statistic]
    | Totals(totals: Acc)         // the (sum, min, max, count) tuple of a group
    | Text(text: string)          // the text of an ungrouped aggregate

  datatype DataSet =
    | Rows(rows: seq<seq<string>>)
    | Grouped(entries: seq<(string, Value)>)
    | Legacy(queryType: string)

  /** The keys of a grouped data set, in insertion order. */
  function Keys(entries: seq<(string, Value)>): (ks: seq<string>)
    ensures |ks| == |entries|
    ensures forall i :: 0 <= i < |entries| ==> ks[i] == entries[i].0
  {
    seq(|entries|, i requires 0 <= i < |entries| => entries[i].0)
  }

  /** Dictionary.Add: a key already present raises; otherwise the entry goes last. */
  function AddEntry(entries: seq<(string, Value)>, key: string, value: Value): (r: Result<seq<(string, Value)>>)
    ensures r.Ok? <==> key !in Keys(entries)
    ensures r.Ok? ==> r.value == entries + [(key, value)]
    ensures r.Throw? ==> r.error == DuplicateKey
  {
    if key in Keys(entries) then Throw(DuplicateKey) else Ok(entries + [(key, value)])
  }

  /** A dictionary never holds a key twice. */
  lemma AddEntryDistinct(entries: seq<(string, Value)>, key: string, value: Value)
    requires Distinct(Keys(entries))
    ensures AddEntry(entries, key, value).Ok? ==> Distinct(Keys(AddEntry(entries, key, value).value))
  {
    if key !in Keys(entries) {
      var ks := Keys(entries + [(key, value)]);
      assert ks == Keys(entries) + [key];
    }
  }
}
