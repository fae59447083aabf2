/** One parsed comparison of a where clause: a field name, a literal value and a condition operator. */
module Restrictions {
  import opened Wrappers

  /**
   * Restriction(propertyName, propertyValue, condition): the constructor takes the three parts in
   * that order.  A datatype value has no setters: nothing changes it after construction.
   */
  datatype Restriction = Restriction(propertyName: string, propertyValue: string, condition: string) {

    /** GetPropertyValue returns the second constructor argument. */
    function GetPropertyValue(): (v: string)
      ensures this == Restriction(propertyName, v, condition)
    {
      propertyValue
    }

    /** GetCondition returns the third constructor argument. */
    function GetCondition(): (c: string)
      ensures this == Restriction(propertyName, propertyValue, c)
    {
      condition
    }

    /**
     * GetPropertyName returns the first constructor argument.  The filter relies on this accessor
     * although the class as written declares only the other two.
     */
    function GetPropertyName(): (n: string)
      ensures this == Restriction(n, propertyValue, condition)
    {
      propertyName
    }

    /**
     * Equals(object).  The argument is Some(r) when it is a Restriction, and None when it is null or
     * of another type: the 'as' cast then yields null and reading its field throws.
     */
    function Equals(obj: Option<Restriction>): (r: Result<bool>)
      ensures obj.None? <==> r == Throw(NullReference)
      ensures obj.Some? ==> r == Ok(obj.value == this)
    {
      match obj
      case None => Throw(NullReference)
      case Some(other) =>
        Ok(other.propertyName == propertyName && other.propertyValue == propertyValue && other.condition == condition)
    }
  }

  /** On restrictions, Equals is reflexive, symmetric and transitive. */
  lemma EqualsIsEquivalence(a: Restriction, b: Restriction, c: Restriction)
    ensures a.Equals(Some(a)) == Ok(true)
    ensures a.Equals(Some(b)) == b.Equals(Some(a))
    ensures a.Equals(Some(b)) == Ok(true) && b.Equals(Some(c)) == Ok(true) ==> a.Equals(Some(c)) == Ok(true)
  {
  }
}
