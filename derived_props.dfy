/** What an operator sees of its children when it derives its own properties
    (CExpressionHandle): the relational child's derived properties and statistics, and each
    scalar child's expression with its derived scalar properties. Also the derivation
    rules the operators inherit from CLogical. */
module DerivedProps {
  import opened Base
  import opened Constraints
  import opened EquivClasses
  import opened Stats

  /** Scalar expressions, as far as the two operators inspect them. */
  datatype ScalarExpr =
    | ScalarConst(datum: Datum)
    | ScalarIdent(col: ColRef)
    | ScalarProjectList(elems: seq<ProjElem>)
    | ScalarOther(eopid: nat)

  /** A project element `col := expr` (CScalarProjectElement and its only child). */
  datatype ProjElem = ProjElem(col: ColRef, expr: ScalarExpr)

  /** Derived scalar properties (CDrvdPropScalar). */
  datatype DrvdScalarProps = DrvdScalarProps(
    used: ColSet,
    defined: ColSet,
    hasSubquery: bool,
    hasNonScalarFunction: bool)

  datatype ScalarChild = ScalarChild(expr: ScalarExpr, props: DrvdScalarProps)

  /** The constraint property (CPropConstraint): equivalence classes and a constraint,
      each possibly absent. */
  datatype PropConstraint = PropConstraint(equivClasses: Option<seq<ColSet>>, cnstr: Option<Constraint>)

  /** A key collection: each element is a set of columns forming a key. */
  type KeyCollection = seq<ColSet>

  /** Derived relational properties (CDrvdPropRelational), the parts the two operators read. */
  datatype DrvdRelProps = DrvdRelProps(
    output: ColSet,
    outer: ColSet,
    maxcard: MaxCard,
    keys: Option<KeyCollection>,
    ppc: PropConstraint)

  /** A handle on a unary logical operator: child 0 is relational, children 1.. are scalar. */
  datatype ExprHandle = ExprHandle(
    relChild: DrvdRelProps,
    childStats: Statistics,
    scalarChildren: seq<ScalarChild>)

  /** Child `childIndex` of the handle, for a scalar child (index 1 or more). */
  function ScalarChildAt(h: ExprHandle, childIndex: nat): (r: ScalarChild)
    requires 1 <= childIndex <= |h.scalarChildren|
  {
    h.scalarChildren[childIndex - 1]
  }

  /** The columns used by all scalar children. */
  function ScalarUsed(h: ExprHandle): (r: ColSet)
    ensures forall c :: c in r <==> exists i :: 0 <= i < |h.scalarChildren| && c in h.scalarChildren[i].props.used
  {
    set c, i | 0 <= i < |h.scalarChildren| && c in h.scalarChildren[i].props.used :: c
  }

  /** CLogical::PcrsDeriveOuter with extra locally used columns: a column is an outer
      reference when the child escalates it, or when it is used locally (by a scalar child
      or in `extraUsed`) and the relational child does not produce it. */
  function DeriveOuterGeneric(h: ExprHandle, extraUsed: ColSet): (r: ColSet)
    ensures forall c :: c in r <==>
              c in h.relChild.outer ||
              ((c in ScalarUsed(h) || c in extraUsed) && c !in h.relChild.output)
  {
    ((ScalarUsed(h) + extraUsed) - h.relChild.output) + h.relChild.outer
  }

  /** CLogical::PcrsReqdChildStats: the requested columns and the locally used ones,
      restricted to what the relational child produces. */
  function PcrsReqdChildStats(h: ExprHandle, pcrsInput: ColSet, pcrsUsed: ColSet): (r: ColSet)
    ensures forall c :: c in r <==> c in h.relChild.output && (c in pcrsInput || c in pcrsUsed)
  {
    (pcrsInput + pcrsUsed) * h.relChild.output
  }

  /** What a constraint property says about a row. */
  predicate PropConstraintHolds(p: PropConstraint, row: Row)
  {
    (p.equivClasses.Some? ==> ClassesHold(p.equivClasses.value, row)) &&
    (p.cnstr.Some? ==> Holds(p.cnstr.value, row))
  }

  lemma PropConstraintHoldsOnExtension(p: PropConstraint, row: Row, row': Row)
    requires PropConstraintHolds(p, row)
    requires forall k :: k in row ==> k in row' && row'[k] == row[k]
    ensures PropConstraintHolds(p, row')
  {
    if p.cnstr.Some? {
      HoldsOnExtension(p.cnstr.value, row, row');
    }
  }
}
