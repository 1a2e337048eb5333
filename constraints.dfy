/** Value constraints (CConstraint): per-column interval constraints and conjunctions of
    constraints, with their meaning on a row. */
module Constraints {
  import opened Base

  /** Comparison kinds a range is built from (IMDType::ECmpType). */
  datatype Comparison = EcmptEq | EcmptL | EcmptLEq | EcmptG | EcmptGEq

  /** A range: all values that compare to `point` by `cmp`. */
  datatype Range = Range(cmp: Comparison, point: Datum)

  /** CConstraintInterval over one column (its ranges, and whether null is admitted), or
      a conjunction of constraints. */
  datatype Constraint =
    | Interval(col: ColId, ranges: seq<Range>, isNull: bool)
    | Conjunction(conjuncts: seq<Constraint>)

  /** Whether a non-null value lies in a range; a range around a null point holds nothing. */
  predicate RangeContains(r: Range, x: int)
  {
    !r.point.isNull &&
    match r.cmp
    case EcmptEq => x == r.point.value
    case EcmptL => x < r.point.value
    case EcmptLEq => x <= r.point.value
    case EcmptG => x > r.point.value
    case EcmptGEq => x >= r.point.value
  }

  /** What a constraint says about a row: an interval admits null when it is marked so and
      a non-null value when one of its ranges holds it; a conjunction holds when every
      conjunct does. */
  predicate Holds(c: Constraint, row: Row)
  {
    match c
    case Interval(col, ranges, isNull) =>
      col in row &&
      (match row[col]
       case Null => isNull
       case Val(x) => exists i :: 0 <= i < |ranges| && RangeContains(ranges[i], x))
    case Conjunction(cs) =>
      forall i :: 0 <= i < |cs| ==> Holds(cs[i], row)
  }

  /** Stand-in for CConstraint::PcnstrConjunction: the conjunction of the given constraints. */
  function PcnstrConjunction(cs: seq<Constraint>): (r: Constraint)
    ensures forall row :: Holds(r, row) <==> (forall i :: 0 <= i < |cs| ==> Holds(cs[i], row))
  {
    Conjunction(cs)
  }

  /** A constraint that holds of a row keeps holding when the row gets more columns. */
  lemma {:induction false} HoldsOnExtension(c: Constraint, row: Row, row': Row)
    requires Holds(c, row)
    requires forall k :: k in row ==> k in row' && row'[k] == row[k]
    ensures Holds(c, row')
  {
    match c
    case Interval(_, _, _) =>
    case Conjunction(cs) =>
      forall i | 0 <= i < |cs| ensures Holds(cs[i], row') {
        HoldsOnExtension(cs[i], row, row');
      }
  }
}
