/** The logical limit operator (CLogicalLimit): its parameters, its identity (matching,
    hashing, remapped copies) and the properties it derives from its children. Its
    children are the relational input (0), the offset (1) and the row count (2). */
module Limit {
  import opened Base
  import opened OrderSpecs
  import opened Stats
  import opened DerivedProps

  /** An operator as another operator sees it when it is asked to match it. */
  datatype Operator = LimitOp(limit: LogicalLimit) | ProjectOp | OtherOp(id: nat)

  function Eopid(op: Operator): (r: OperatorId)
    ensures r == EopLogicalLimit <==> op.LimitOp?
  {
    match op
    case LimitOp(_) => EopLogicalLimit
    case ProjectOp => EopLogicalProject
    case OtherOp(n) => EopOther(n)
  }

  /** CUtils::FScalarConstInt<IMDTypeInt8>: a constant whose datum is of the int8 type. */
  predicate FScalarConstInt8(e: ScalarExpr)
  {
    e.ScalarConst? && e.datum.typ.info == EtiInt8
  }

  class LogicalLimit {
    /** The order spec; absent only in a pattern operator. */
    const pos: Option<OrderSpec>
    const fGlobal: bool
    const fHasCount: bool
    /** The "non-removable" flag: the limit sits on top of a DML statement. */
    const topLimitUnderDml: bool
    const isPattern: bool
    /** Columns the operator uses locally (inherited m_pcrsLocalUsed). */
    var localUsed: ColSet

    /** The pattern constructor, used by transformation rules to describe shapes. */
    constructor Pattern()
      ensures pos == None && fGlobal && !fHasCount && !topLimitUnderDml && isPattern
      ensures localUsed == {}
    {
      pos := None;
      fGlobal := true;
      fHasCount := false;
      topLimitUnderDml := false;
      isPattern := true;
      localUsed := {};
    }

    /** The full constructor; the order spec's columns become locally used columns. */
    constructor (pos: OrderSpec, fGlobal: bool, fHasCount: bool, fTopLimitUnderDml: bool)
      ensures this.pos == Some(pos) && this.fGlobal == fGlobal && this.fHasCount == fHasCount
      ensures topLimitUnderDml == fTopLimitUnderDml && !isPattern
      ensures localUsed == PosUsed(pos)
    {
      this.pos := Some(pos);
      this.fGlobal := fGlobal;
      this.fHasCount := fHasCount;
      topLimitUnderDml := fTopLimitUnderDml;
      isPattern := false;
      localUsed := {};
      new;
      localUsed := localUsed + PosUsed(pos);
    }

    /** Operator-level hash: the operator id, the order spec, and the two flags. */
    function HashValue(): (r: Ulong)
      requires pos.Some?
    {
      CombineHashes(
        CombineHashes(HashOperatorId(EopLogicalLimit), PosHash(pos.value)),
        CombineHashes(HashBool(fGlobal), HashBool(fHasCount)))
    }

    /** Operator-level match: another limit with the same global and has-count flags and a
        matching order spec. The non-removable flag plays no part. */
    predicate Matches(pop: Operator)
      requires pop.LimitOp? && pop.limit.fGlobal == fGlobal && pop.limit.fHasCount == fHasCount ==>
                 pos.Some? && pop.limit.pos.Some?
      ensures Matches(pop) <==>
                pop.LimitOp? && pop.limit.fGlobal == fGlobal && pop.limit.fHasCount == fHasCount &&
                PosMatches(pos.value, pop.limit.pos.value)
    {
      if Eopid(pop) == EopLogicalLimit then
        var popLimit := pop.limit;
        if popLimit.fGlobal == fGlobal && popLimit.fHasCount == fHasCount then
          PosMatches(pos.value, popLimit.pos.value)
        else false
      else false
    }

    /** A copy whose order spec has its columns remapped; the flags are kept and this
        operator is left as it is. */
    method PopCopyWithRemappedColumns(mapping: map<ColId, ColRef>, mustExist: bool) returns (r: Result<LogicalLimit>)
      requires pos.Some?
      ensures r.Err? <==> PosRemap(pos.value, mapping, mustExist).Err?
      ensures r.Ok? ==> fresh(r.value)
      ensures r.Ok? ==>
                r.value.pos == Some(PosRemap(pos.value, mapping, mustExist).value) &&
                r.value.fGlobal == fGlobal && r.value.fHasCount == fHasCount &&
                r.value.topLimitUnderDml == topLimitUnderDml && !r.value.isPattern &&
                r.value.localUsed == PosUsed(r.value.pos.value)
    {
      var remapped := PosRemap(pos.value, mapping, mustExist);
      if remapped.Err? {
        return Err(remapped.error);
      }
      var copy := new LogicalLimit(remapped.value, fGlobal, fHasCount, topLimitUnderDml);
      r := Ok(copy);
    }

    /** Output columns pass through from the child. */
    function PcrsDeriveOutput(h: ExprHandle): (r: ColSet)
      ensures r == h.relChild.output
    {
      h.relChild.output
    }

    /** Outer references, with the order spec's columns counted as locally used. */
    function PcrsDeriveOuter(h: ExprHandle): (r: ColSet)
      requires pos.Some?
      ensures forall c :: c in r <==>
                c in h.relChild.outer ||
                ((c in ScalarUsed(h) || c in PosUsed(pos.value)) && c !in h.relChild.output)
    {
      DeriveOuterGeneric(h, PosUsed(pos.value))
    }

    /** Max cardinality: a literal int8 row count K gives K (as an unsigned 64-bit value);
        any other row count leaves the child's bound. */
    function Maxcard(h: ExprHandle): (r: MaxCard)
      requires 2 <= |h.scalarChildren|
      ensures var count := ScalarChildAt(h, 2).expr;
              (FScalarConstInt8(count) && 0 <= count.datum.value <= ULLONG_MAX ==> r.ull == count.datum.value) &&
              (FScalarConstInt8(count) && -0x8000_0000_0000_0000 <= count.datum.value < 0 ==>
                 r.ull == count.datum.value + 0x1_0000_0000_0000_0000) &&
              (!FScalarConstInt8(count) ==> r == h.relChild.maxcard)
    {
      var pexprCount := ScalarChildAt(h, 2).expr;
      if FScalarConstInt8(pexprCount) then MaxCard(LintToUllong(pexprCount.datum.value))
      else h.relChild.maxcard
    }

    /** The transformation rules that apply to a limit. */
    function PxfsCandidates(): (r: set<XformId>)
      ensures forall x :: x in r <==> x == ExfImplementLimit || x == ExfSplitLimit
    {
      {ExfImplementLimit, ExfSplitLimit}
    }

    /** Columns needed from the child's statistics: the requested ones and those the offset
        and row-count children use, as far as the child produces them. */
    method PcrsStat(h: ExprHandle, pcrsInput: ColSet, childIndex: nat) returns (pcrsStat: ColSet)
      requires childIndex == 0
      requires 2 <= |h.scalarChildren|
      ensures forall c :: c in pcrsStat <==>
                c in h.relChild.output &&
                (c in pcrsInput || c in ScalarChildAt(h, 1).props.used || c in ScalarChildAt(h, 2).props.used)
    {
      var pcrsUsed: ColSet := {};
      pcrsUsed := pcrsUsed + ScalarChildAt(h, 1).props.used;
      pcrsUsed := pcrsUsed + ScalarChildAt(h, 2).props.used;
      pcrsStat := PcrsReqdChildStats(h, pcrsInput, pcrsUsed);
    }

    /** Keys pass through from the child. */
    function PkcDeriveKeys(h: ExprHandle): (r: Option<KeyCollection>)
      ensures r == h.relChild.keys
    {
      h.relChild.keys
    }

    /** Statistics: the child's own statistics object when its row estimate is within the
        max cardinality, otherwise the child's statistics limited to that bound. */
    function PstatsDerive(h: ExprHandle): (r: Statistics)
      requires 2 <= |h.scalarChildren|
      ensures (r == h.childStats) <==> h.childStats.rows <= Maxcard(h).ull as real
      ensures h.childStats.rows > Maxcard(h).ull as real ==>
                r == CalcLimitStats(h.childStats, Maxcard(h).ull as real)
      ensures r.rows <= Maxcard(h).ull as real && r.rows <= h.childStats.rows
    {
      var childStats := h.childStats;
      var rowsMax := Maxcard(h).ull as real;
      if childStats.rows <= rowsMax then childStats
      else CalcLimitStats(childStats, rowsMax)
    }
  }

  /** Matching limits hash alike. */
  lemma MatchesImpliesEqualHash(a: LogicalLimit, b: LogicalLimit)
    requires a.pos.Some? && b.pos.Some?
    requires a.Matches(LimitOp(b))
    ensures a.HashValue() == b.HashValue()
  {
    PosMatchesImpliesEqualHash(a.pos.value, b.pos.value);
  }

  /** Two limits that differ at most in the non-removable flag match and hash alike. */
  lemma MatchesIgnoresTopLimitUnderDml(a: LogicalLimit, b: LogicalLimit)
    requires a.pos.Some? && a.pos == b.pos
    requires a.fGlobal == b.fGlobal && a.fHasCount == b.fHasCount
    ensures a.Matches(LimitOp(b)) && b.Matches(LimitOp(a))
    ensures a.HashValue() == b.HashValue()
  {
    PosMatchesEquivalence(a.pos.value, b.pos.value, b.pos.value);
  }

  /** A row count of ten over a child estimated at a million rows: the bound is ten and
      the statistics are cut down to ten rows. */
  lemma LimitTenOverMillionRows(l: LogicalLimit, h: ExprHandle, int8: MDType)
    requires int8.info == EtiInt8 && |h.scalarChildren| == 2
    requires h.scalarChildren[1].expr == ScalarConst(Datum(int8, false, 10, true))
    requires h.childStats.rows == 1000000.0
    ensures l.Maxcard(h).ull == 10
    ensures l.PstatsDerive(h) == CalcLimitStats(h.childStats, 10.0) && l.PstatsDerive(h).rows == 10.0
  {
  }

  /** A row count of ten over a child estimated at five rows: the bound is still ten, and
      the child's own statistics object is handed on. */
  lemma LimitTenOverFiveRows(l: LogicalLimit, h: ExprHandle, int8: MDType)
    requires int8.info == EtiInt8 && |h.scalarChildren| == 2
    requires h.scalarChildren[1].expr == ScalarConst(Datum(int8, false, 10, true))
    requires h.childStats.rows == 5.0
    ensures l.Maxcard(h).ull == 10
    ensures l.PstatsDerive(h) == h.childStats
  {
  }
}
