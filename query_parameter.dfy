/**
 * The parsed form of a query.  QueryParameter is the mutable object the parser fills in
 * clause by clause; Plan is a snapshot of the parser-written part of it.
 */
module QueryParameters {
  import opened Restrictions
  import opened AggregateFunctions

  /** A group of restrictions and the operator that folds the group into the running verdict. */
  datatype ConditionGroup = ConditionGroup(ConditionsGroup: seq<Restriction>, Operator: string)

  /** The names the dispatcher stores in QueryType. */
  const SimpleQuery := "SIMPLE_QUERY"
  const AggregateFunctionQuery := "AGGREGATE_FUNCTION"
  const SimpleQueryWithFields := "SIMPLE_QUERY_WITH_FIELDS"
  const RestrictionGreaterThan := "QUERY_WITH_RESTRICTION_GREATERTHAN"
  const RestrictionLessThan := "QUERY_WITH_RESTRICTION_LESSTHAN"
  const RestrictionLessThanOrEqualTo := "QUERY_WITH_RESTRICTION_LESSTHANOREQUALTO"
  const RestrictionWithLogicalOperator := "QUERY_WITH_RESTRICTION_WITH_LOGICAL_OPERATOR"
  const RestrictionWithLogicalOperatorNot := "QUERY_WITH_RESTRICTION_WITH_LOGICAL_OPERATOR_NOT"

  /** The seven clauses the parser writes. */
  datatype Plan = Plan(
    File: string,
    Fields: seq<string>,
    AggregateFunctions: seq<AggregateFunction>,
    Restrictions: seq<Restriction>,
    GroupByFields: seq<string>,
    OrderByFields: seq<string>,
    LogicalOperators: seq<string>)

  /** A fresh QueryParameter: empty text and empty lists. */
  const EmptyPlan := Plan("", [], [], [], [], [], [])

  class QueryParameter {
    var File: string
    var Fields: seq<string>
    var AggregateFunctions: seq<AggregateFunction>
    var Restrictions: seq<Restriction>
    var GroupByFields: seq<string>
    var OrderByFields: seq<string>
    var LogicalOperators: seq<string>
    var ConditionGroups: seq<ConditionGroup>
    var QueryType: string

    constructor()
      ensures Snapshot() == EmptyPlan
      ensures ConditionGroups == [] && QueryType == ""
    {
      File := "";
      Fields := [];
      AggregateFunctions := [];
      Restrictions := [];
      GroupByFields := [];
      OrderByFields := [];
      LogicalOperators := [];
      ConditionGroups := [];
      QueryType := "";
    }

    /** The clause fields as one value. */
    function Snapshot(): Plan
      reads this
    {
      Plan(File, Fields, AggregateFunctions, Restrictions, GroupByFields, OrderByFields, LogicalOperators)
    }
  }
}
