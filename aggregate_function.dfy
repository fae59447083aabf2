/** One parsed aggregate call of a select list: the field it reads and the function applied to it. */
module AggregateFunctions {
  import opened Wrappers

  /**
   * AggregateFunction(field, function): the constructor takes the field first and the function
   * second.  A datatype value has no setters: nothing changes it after construction.
   */
  datatype AggregateFunction = AggregateFunction(field: string, functionName: string) {

    /** GetField returns the first constructor argument. */
    function GetField(): (f: string)
      ensures this == AggregateFunction(f, functionName)
    {
      field
    }

    /** GetFunction returns the second constructor argument. */
    function GetFunction(): (f: string)
      ensures this == AggregateFunction(field, f)
    {
      functionName
    }

    /**
     * Equals(object).  The argument is Some(a) when it is an AggregateFunction, and None when it is
     * null or of another type: the 'as' cast then yields null and reading its field throws.
     */
    function Equals(obj: Option<AggregateFunction>): (r: Result<bool>)
      ensures obj.None? <==> r == Throw(NullReference)
      ensures obj.Some? ==> r == Ok(obj.value == this)
    {
      match obj
      case None => Throw(NullReference)
      case Some(other) => Ok(other.field == field && other.functionName == functionName)
    }
  }

  /** On aggregate functions, Equals is reflexive, symmetric and transitive. */
  lemma EqualsIsEquivalence(a: AggregateFunction, b: AggregateFunction, c: AggregateFunction)
    ensures a.Equals(Some(a)) == Ok(true)
    ensures a.Equals(Some(b)) == b.Equals(Some(a))
    ensures a.Equals(Some(b)) == Ok(true) && b.Equals(Some(c)) == Ok(true) ==> a.Equals(Some(c)) == Ok(true)
  {
  }
}
