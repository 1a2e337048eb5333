/** The logical project operator (CLogicalProject). It has no parameters of its own: its
    children are the relational input (0) and a project list (1) of elements `col := expr`. */
module Project {
  import opened Base
  import opened Constraints
  import opened EquivClasses
  import opened Stats
  import opened DerivedProps

  /** A caller-owned, growable array of constraints (CConstraintArray). */
  class ConstraintArray {
    var elems: seq<Constraint>

    constructor ()
      ensures elems == []
    {
      elems := [];
    }

    method Append(c: Constraint)
      modifies this
      ensures elems == old(elems) + [c]
    {
      elems := elems + [c];
    }
  }

  /** A caller-owned, growable array of column sets (CColRefSetArray). */
  class ColRefSetArray {
    var elems: seq<ColSet>

    constructor FromSeq(s: seq<ColSet>)
      ensures elems == s
    {
      elems := s;
    }

    method Append(s: ColSet)
      modifies this
      ensures elems == old(elems) + [s]
    {
      elems := elems + [s];
    }
  }

  /** The handle of a project: one scalar child, and it is a project list. */
  predicate IsProjectHandle(h: ExprHandle)
  {
    |h.scalarChildren| == 1 && h.scalarChildren[0].expr.ScalarProjectList?
  }

  function ProjList(h: ExprHandle): (r: seq<ProjElem>)
    requires IsProjectHandle(h)
  {
    ScalarChildAt(h, 1).expr.elems
  }

  /** Output columns: the child's, and those the project list defines. */
  function PcrsDeriveOutput(h: ExprHandle): (r: ColSet)
    requires |h.scalarChildren| == 1
    ensures forall c :: c in r <==> c in h.relChild.output || c in ScalarChildAt(h, 1).props.defined
  {
    h.relChild.output + ScalarChildAt(h, 1).props.defined
  }

  /** Keys pass through from the child. */
  function PkcDeriveKeys(h: ExprHandle): (r: Option<KeyCollection>)
    ensures r == h.relChild.keys
  {
    h.relChild.keys
  }

  // ---------------------------------------------------------------------------------
  // Constraint derivation

  /** What the rename case asserts of an element `c := a`: two different columns of the
      same type. */
  predicate RenameWellFormed(e: ProjElem)
  {
    e.expr.ScalarIdent? ==> e.col.id != e.expr.col.id && e.col.typ.mdid == e.expr.col.typ.mdid
  }

  predicate WellFormedList(elems: seq<ProjElem>)
  {
    forall i :: 0 <= i < |elems| ==> RenameWellFormed(elems[i])
  }

  /** A rename `c := a` of a constrainable type whose source is a non-nullable
      base-table column. */
  predicate IsEquivRename(e: ProjElem)
  {
    e.expr.ScalarIdent? && e.col.typ.constrainable &&
    e.expr.col.origin == EcrtTable && !e.expr.col.nullable
  }

  /** A constant `c := v` of a constrainable type. */
  predicate IsConstrainableConst(e: ProjElem)
  {
    e.expr.ScalarConst? && e.col.typ.constrainable
  }

  /** The equivalence class a rename element yields, if any. */
  function PdrgpcrsEquivClassFromScIdent(e: ProjElem): (r: Option<seq<ColSet>>)
    requires RenameWellFormed(e)
    ensures r.Some? <==> IsEquivRename(e)
    ensures r.Some? ==> r.value == [{e.col.id, e.expr.col.id}]
  {
    if !e.expr.ScalarIdent? then None
    else if !e.col.typ.constrainable then None
    else if e.expr.col.origin == EcrtTable && !e.expr.col.nullable then
      Some([{e.col.id, e.expr.col.id}])
    else None
  }

  /** The interval constraint of a constant: one equality range at a non-null value, or no
      range and "is null" for a null. It admits exactly the constant's value. */
  function ConstInterval(c: ColId, d: Datum): (r: Constraint)
    ensures forall row :: Holds(r, row) <==> c in row && row[c] == DatumValue(d)
  {
    var r := Interval(c, if d.isNull then [] else [Range(EcmptEq, d)], d.isNull);
    assert forall row :: Holds(r, row) <==> c in row && row[c] == DatumValue(d) by {
      forall row: Row ensures Holds(r, row) <==> c in row && row[c] == DatumValue(d) {
        if c in row && row[c].Val? && !d.isNull {
          assert RangeContains(r.ranges[0], row[c].v) <==> row[c].v == d.value;
        }
      }
    }
    r
  }

  /** The facts collected so far: interval constraints and equivalence classes. */
  datatype LocalFacts = LocalFacts(cnstrs: seq<Constraint>, classes: seq<ColSet>)

  /** What one element adds: a constrainable constant appends its interval and its
      singleton class; a qualifying rename merges its class into the classes so far. */
  function Step(f: LocalFacts, e: ProjElem): (r: LocalFacts)
    requires RenameWellFormed(e)
  {
    if e.expr.ScalarConst? then
      if e.col.typ.constrainable then
        LocalFacts(f.cnstrs + [ConstInterval(e.col.id, e.expr.datum)], f.classes + [{e.col.id}])
      else f
    else
      match PdrgpcrsEquivClassFromScIdent(e)
      case None => f
      case Some(cls) => f.(classes := MergeEquivClasses(f.classes, cls))
  }

  /** The facts of the first `k` elements of a project list, element by element. */
  function CollectFacts(elems: seq<ProjElem>, k: nat): (r: LocalFacts)
    requires WellFormedList(elems) && k <= |elems|
  {
    if k == 0 then LocalFacts([], [])
    else Step(CollectFacts(elems, k - 1), elems[k - 1])
  }

  /** The constraint property of a project: the child's when the list has a subquery or
      yields no facts; otherwise the local classes merged with the child's and the
      conjunction of the local intervals with the child's constraint. */
  function DerivedConstraint(h: ExprHandle): (r: PropConstraint)
    requires IsProjectHandle(h)
    requires !ScalarChildAt(h, 1).props.hasSubquery ==> WellFormedList(ProjList(h))
  {
    if ScalarChildAt(h, 1).props.hasSubquery then h.relChild.ppc
    else
      var f := CollectFacts(ProjList(h), |ProjList(h)|);
      if |f.cnstrs| == 0 && |f.classes| == 0 then h.relChild.ppc
      else
        var child := h.relChild.ppc;
        var classes := if child.equivClasses.Some? then MergeEquivClasses(f.classes, child.equivClasses.value)
                       else f.classes;
        var cnstrs := f.cnstrs + (if child.cnstr.Some? then [child.cnstr.value] else []);
        PropConstraint(Some(classes), Some(PcnstrConjunction(cnstrs)))
  }

  /** Appends the facts of a constant element to the caller's arrays. */
  method ExtractConstraintFromScConst(e: ProjElem, pdrgpcnstr: ConstraintArray, pdrgpcrs: ColRefSetArray)
    modifies pdrgpcnstr, pdrgpcrs
    ensures IsConstrainableConst(e) ==>
              pdrgpcnstr.elems == old(pdrgpcnstr.elems) + [ConstInterval(e.col.id, e.expr.datum)] &&
              pdrgpcrs.elems == old(pdrgpcrs.elems) + [{e.col.id}]
    ensures !IsConstrainableConst(e) ==>
              pdrgpcnstr.elems == old(pdrgpcnstr.elems) && pdrgpcrs.elems == old(pdrgpcrs.elems)
  {
    var colref := e.col;
    if !e.expr.ScalarConst? || !colref.typ.constrainable {
      return;
    }
    var datum := e.expr.datum;
    var pdrgprng: seq<Range> := [];
    var isNull := datum.isNull;
    if !isNull {
      pdrgprng := pdrgprng + [Range(EcmptEq, datum)];
    }
    assert Interval(colref.id, pdrgprng, isNull) == ConstInterval(colref.id, datum);
    pdrgpcnstr.Append(Interval(colref.id, pdrgprng, isNull));
    pdrgpcrs.Append({colref.id});
  }

  /** PpcDeriveConstraint: walks the project list collecting facts, then combines them with
      the child's constraint property. */
  method PpcDeriveConstraint(h: ExprHandle) returns (ppc: PropConstraint)
    requires IsProjectHandle(h)
    requires !ScalarChildAt(h, 1).props.hasSubquery ==> WellFormedList(ProjList(h))
    ensures ppc == DerivedConstraint(h)
  {
    if ScalarChildAt(h, 1).props.hasSubquery {
      return h.relChild.ppc;
    }
    var pexprPrL := ProjList(h);
    var pdrgpcnstr := new ConstraintArray();
    var pdrgpcrs := new ColRefSetArray.FromSeq([]);
    var ul := 0;
    while ul < |pexprPrL|
      invariant 0 <= ul <= |pexprPrL|
      invariant fresh(pdrgpcnstr) && fresh(pdrgpcrs)
      invariant LocalFacts(pdrgpcnstr.elems, pdrgpcrs.elems) == CollectFacts(pexprPrL, ul)
    {
      var pexprPrEl := pexprPrL[ul];
      if pexprPrEl.expr.ScalarConst? {
        ExtractConstraintFromScConst(pexprPrEl, pdrgpcnstr, pdrgpcrs);
      } else {
        var pdrgpcrsChild := PdrgpcrsEquivClassFromScIdent(pexprPrEl);
        if pdrgpcrsChild.Some? {
          pdrgpcrs := new ColRefSetArray.FromSeq(MergeEquivClasses(pdrgpcrs.elems, pdrgpcrsChild.value));
        }
      }
      ul := ul + 1;
    }
    ghost var f := CollectFacts(pexprPrL, |pexprPrL|);
    assert f.cnstrs == pdrgpcnstr.elems && f.classes == pdrgpcrs.elems;
    if |pdrgpcnstr.elems| == 0 && |pdrgpcrs.elems| == 0 {
      return h.relChild.ppc;
    }
    var ppcChild := h.relChild.ppc;
    if ppcChild.equivClasses.Some? {
      pdrgpcrs := new ColRefSetArray.FromSeq(MergeEquivClasses(pdrgpcrs.elems, ppcChild.equivClasses.value));
    }
    if ppcChild.cnstr.Some? {
      pdrgpcnstr.Append(ppcChild.cnstr.value);
    }
    assert pdrgpcnstr.elems == f.cnstrs + (if ppcChild.cnstr.Some? then [ppcChild.cnstr.value] else []);
    assert pdrgpcrs.elems == if ppcChild.equivClasses.Some? then MergeEquivClasses(f.classes, ppcChild.equivClasses.value)
                             else f.classes;
    var pcnstrNew := PcnstrConjunction(pdrgpcnstr.elems);
    ppc := PropConstraint(Some(pdrgpcrs.elems), Some(pcnstrNew));
  }

  // ---------------------------------------------------------------------------------
  // Max cardinality and transformation candidates

  /** Max cardinality: unbounded when the project list has a set-returning function,
      otherwise the child's bound. */
  function Maxcard(h: ExprHandle): (r: MaxCard)
    requires 1 <= |h.scalarChildren|
    ensures ScalarChildAt(h, 1).props.hasNonScalarFunction ==> r == Unbounded
    ensures !ScalarChildAt(h, 1).props.hasNonScalarFunction ==> r == h.relChild.maxcard
  {
    if ScalarChildAt(h, 1).props.hasNonScalarFunction then Unbounded
    else h.relChild.maxcard
  }

  /** The transformation rules that apply to a project. */
  function PxfsCandidates(): (r: set<XformId>)
    ensures forall x :: x in r <==>
              x == ExfSimplifyProjectWithSubquery || x == ExfProject2Apply ||
              x == ExfProject2ComputeScalar || x == ExfCollapseProject
  {
    {ExfSimplifyProjectWithSubquery, ExfProject2Apply, ExfProject2ComputeScalar, ExfCollapseProject}
  }

  // ---------------------------------------------------------------------------------
  // Statistics

  /** A constant whose datum can be used in statistics. */
  predicate IsStatsConst(e: ProjElem)
  {
    e.expr.ScalarConst? && e.expr.datum.statsMappable
  }

  /** The column-to-constant map of the first `k` elements of a project list, built
      element by element; inserting a column id that is already present leaves the map as
      it is. */
  function ConstMap(elems: seq<ProjElem>, k: nat): (r: map<ColId, Datum>)
    requires k <= |elems|
  {
    if k == 0 then map[]
    else
      var m := ConstMap(elems, k - 1);
      var e := elems[k - 1];
      if IsStatsConst(e) && e.col.id !in m then m[e.col.id := e.expr.datum] else m
  }

  /** PstatsDerive: collects the stats-mappable constants of the project list and hands
      them to the projection statistics. */
  method PstatsDerive(h: ExprHandle) returns (stats: Statistics)
    requires IsProjectHandle(h)
    ensures stats == PstatsDeriveProject(h.childStats, ConstMap(ProjList(h), |ProjList(h)|))
    ensures stats.rows == h.childStats.rows
  {
    var phmuldatum: map<ColId, Datum> := map[];
    var pexprPrList := ProjList(h);
    var ul := 0;
    while ul < |pexprPrList|
      invariant 0 <= ul <= |pexprPrList|
      invariant phmuldatum == ConstMap(pexprPrList, ul)
    {
      var pexprPrElem := pexprPrList[ul];
      var colref := pexprPrElem.col;
      if pexprPrElem.expr.ScalarConst? {
        var datum := pexprPrElem.expr.datum;
        if datum.statsMappable {
          if colref.id !in phmuldatum {
            phmuldatum := phmuldatum[colref.id := datum];
          }
        }
      }
      ul := ul + 1;
    }
    stats := PstatsDeriveProject(h.childStats, phmuldatum);
  }


  // ---------------------------------------------------------------------------------
  // Properties of the constraint derivation

  lemma WithinReflexive(a: seq<ColSet>)
    ensures Within(a, a)
  {
    forall p | p in a ensures exists q :: q in a && p <= q {
      assert p <= p;
    }
  }

  /** One element never drops a fact: the intervals so far stay a prefix and the classes
      so far stay within the new classes. */
  lemma StepGrows(f: LocalFacts, e: ProjElem)
    requires RenameWellFormed(e)
    ensures f.cnstrs <= Step(f, e).cnstrs
    ensures Within(f.classes, Step(f, e).classes)
  {
    if e.expr.ScalarConst? && e.col.typ.constrainable {
      assert forall p :: p in f.classes ==> p in Step(f, e).classes;
    } else if e.expr.ScalarConst? || !IsEquivRename(e) {
      WithinReflexive(f.classes);
    }
  }

  /** Facts collected from the first `k` elements survive the next ones. */
  lemma {:induction false} CollectFactsGrows(elems: seq<ProjElem>, k: nat, n: nat)
    requires WellFormedList(elems) && k <= n <= |elems|
    ensures CollectFacts(elems, k).cnstrs <= CollectFacts(elems, n).cnstrs
    ensures Within(CollectFacts(elems, k).classes, CollectFacts(elems, n).classes)
    decreases n
  {
    if k < n {
      CollectFactsGrows(elems, k, n - 1);
      StepGrows(CollectFacts(elems, n - 1), elems[n - 1]);
      WithinTransitive(CollectFacts(elems, k).classes, CollectFacts(elems, n - 1).classes,
                       CollectFacts(elems, n).classes);
    } else {
      WithinReflexive(CollectFacts(elems, k).classes);
    }
  }

  /** A constrainable constant's step appends its interval and its singleton class. */
  lemma ConstStep(f: LocalFacts, e: ProjElem)
    requires RenameWellFormed(e) && IsConstrainableConst(e)
    ensures ConstInterval(e.col.id, e.expr.datum) in Step(f, e).cnstrs
    ensures Within([{e.col.id}], Step(f, e).classes)
  {
    assert {e.col.id} in Step(f, e).classes;
  }

  /** A constrainable constant contributes its interval and a class holding its column. */
  lemma ConstFactsCollected(elems: seq<ProjElem>, i: nat, n: nat)
    requires WellFormedList(elems) && i < n <= |elems| && IsConstrainableConst(elems[i])
    ensures ConstInterval(elems[i].col.id, elems[i].expr.datum) in CollectFacts(elems, n).cnstrs
    ensures Within([{elems[i].col.id}], CollectFacts(elems, n).classes)
  {
    var iv := ConstInterval(elems[i].col.id, elems[i].expr.datum);
    var c := {elems[i].col.id};
    assert iv in CollectFacts(elems, i + 1).cnstrs && Within([c], CollectFacts(elems, i + 1).classes) by {
      CollectFactsUnfold(elems, i);
      ConstStep(CollectFacts(elems, i), elems[i]);
    }
    ClassSurvives(elems, i + 1, n, c);
    CollectFactsGrows(elems, i + 1, n);
  }

  /** A qualifying rename's class ends up within the classes after its step. */
  lemma RenameStep(f: LocalFacts, e: ProjElem)
    requires RenameWellFormed(e) && IsEquivRename(e)
    ensures Within([{e.col.id, e.expr.col.id}], Step(f, e).classes)
  {
  }

  lemma CollectFactsUnfold(elems: seq<ProjElem>, k: nat)
    requires WellFormedList(elems) && k < |elems|
    ensures RenameWellFormed(elems[k])
    ensures CollectFacts(elems, k + 1) == Step(CollectFacts(elems, k), elems[k])
  {
  }

  /** A class within the facts of the first `k` elements stays within the facts of the
      first `n`. */
  lemma {:induction false} ClassSurvives(elems: seq<ProjElem>, k: nat, n: nat, c: ColSet)
    requires WellFormedList(elems) && k <= n <= |elems|
    requires Within([c], CollectFacts(elems, k).classes)
    ensures Within([c], CollectFacts(elems, n).classes)
    decreases n
  {
    if k < n {
      ClassSurvives(elems, k, n - 1, c);
      StepGrows(CollectFacts(elems, n - 1), elems[n - 1]);
      WithinTransitive([c], CollectFacts(elems, n - 1).classes, CollectFacts(elems, n).classes);
    }
  }

  /** A qualifying rename contributes a class holding both its columns. */
  lemma RenameFactsCollected(elems: seq<ProjElem>, i: nat, n: nat)
    requires WellFormedList(elems) && i < n <= |elems| && IsEquivRename(elems[i])
    ensures Within([{elems[i].col.id, elems[i].expr.col.id}], CollectFacts(elems, n).classes)
  {
    var c := {elems[i].col.id, elems[i].expr.col.id};
    assert Within([c], CollectFacts(elems, i + 1).classes) by {
      CollectFactsUnfold(elems, i);
      RenameStep(CollectFacts(elems, i), elems[i]);
    }
    ClassSurvives(elems, i + 1, n, c);
  }

  /** Each constrainable constant contributes its interval and a class holding its column;
      each qualifying rename contributes a class holding both columns. */
  lemma ElementFactsCollected(elems: seq<ProjElem>, i: nat, n: nat)
    requires WellFormedList(elems) && i < n <= |elems|
    ensures IsConstrainableConst(elems[i]) ==>
              ConstInterval(elems[i].col.id, elems[i].expr.datum) in CollectFacts(elems, n).cnstrs &&
              Within([{elems[i].col.id}], CollectFacts(elems, n).classes)
    ensures IsEquivRename(elems[i]) ==>
              Within([{elems[i].col.id, elems[i].expr.col.id}], CollectFacts(elems, n).classes)
  {
    if IsConstrainableConst(elems[i]) {
      ConstFactsCollected(elems, i, n);
    }
    if IsEquivRename(elems[i]) {
      RenameFactsCollected(elems, i, n);
    }
  }

  /** The first `n` elements yield no facts exactly when none of them is a constrainable
      constant or a qualifying rename. */
  lemma {:induction false} NoFactsIff(elems: seq<ProjElem>, n: nat)
    requires WellFormedList(elems) && n <= |elems|
    ensures (|CollectFacts(elems, n).cnstrs| == 0 && |CollectFacts(elems, n).classes| == 0) <==>
            (forall i :: 0 <= i < n ==> !IsConstrainableConst(elems[i]) && !IsEquivRename(elems[i]))
    decreases n
  {
    if exists i :: 0 <= i < n && (IsConstrainableConst(elems[i]) || IsEquivRename(elems[i])) {
      var i :| 0 <= i < n && (IsConstrainableConst(elems[i]) || IsEquivRename(elems[i]));
      ElementFactsCollected(elems, i, n);
      var cls := if IsConstrainableConst(elems[i]) then {elems[i].col.id} else {elems[i].col.id, elems[i].expr.col.id};
      assert cls in [cls];
      assert |CollectFacts(elems, n).classes| != 0;
    } else if n > 0 {
      NoFactsIff(elems, n - 1);
    }
  }

  /** Subqueries, or a list without facts, leave the child's constraint property as it is. */
  lemma ConstraintPassThrough(h: ExprHandle)
    requires IsProjectHandle(h)
    requires !ScalarChildAt(h, 1).props.hasSubquery ==> WellFormedList(ProjList(h))
    requires ScalarChildAt(h, 1).props.hasSubquery ||
             forall i :: 0 <= i < |ProjList(h)| ==> !IsConstrainableConst(ProjList(h)[i]) && !IsEquivRename(ProjList(h)[i])
    ensures DerivedConstraint(h) == h.relChild.ppc
  {
    if !ScalarChildAt(h, 1).props.hasSubquery {
      NoFactsIff(ProjList(h), |ProjList(h)|);
    }
  }

  /** When facts are found, the result keeps every local fact and every fact of the child. */
  lemma ChildFactsKept(h: ExprHandle)
    requires IsProjectHandle(h)
    requires !ScalarChildAt(h, 1).props.hasSubquery && WellFormedList(ProjList(h))
    requires exists i :: 0 <= i < |ProjList(h)| && (IsConstrainableConst(ProjList(h)[i]) || IsEquivRename(ProjList(h)[i]))
    ensures var r := DerivedConstraint(h); var f := CollectFacts(ProjList(h), |ProjList(h)|);
            r.equivClasses.Some? && r.cnstr.Some? && r.cnstr.value.Conjunction? &&
            Within(f.classes, r.equivClasses.value) &&
            f.cnstrs <= r.cnstr.value.conjuncts &&
            (h.relChild.ppc.equivClasses.Some? ==> Within(h.relChild.ppc.equivClasses.value, r.equivClasses.value)) &&
            (h.relChild.ppc.cnstr.Some? ==> h.relChild.ppc.cnstr.value in r.cnstr.value.conjuncts)
  {
    var elems := ProjList(h);
    NoFactsIff(elems, |elems|);
    var f := CollectFacts(elems, |elems|);
    if h.relChild.ppc.equivClasses.None? {
      WithinReflexive(f.classes);
    }
  }

  /** The conjunction of `cs` with an optional extra constraint holds of a row exactly
      when all of `cs` and the extra one do. */
  lemma ConjunctionWithChild(cs: seq<Constraint>, child: Option<Constraint>, row: Row)
    ensures Holds(PcnstrConjunction(cs + (if child.Some? then [child.value] else [])), row) <==>
            AllHold(cs, row) && (child.Some? ==> Holds(child.value, row))
  {
    var all := cs + (if child.Some? then [child.value] else []);
    assert forall i :: 0 <= i < |cs| ==> all[i] == cs[i];
    if child.Some? {
      assert all[|cs|] == child.value;
    }
  }

  /** When facts are found, the derived constraint holds of a row exactly when every local
      interval and the child's constraint do, whatever node the conjunction builds. */
  lemma DerivedConstraintMeaning(h: ExprHandle)
    requires IsProjectHandle(h)
    requires !ScalarChildAt(h, 1).props.hasSubquery && WellFormedList(ProjList(h))
    requires exists i :: 0 <= i < |ProjList(h)| && (IsConstrainableConst(ProjList(h)[i]) || IsEquivRename(ProjList(h)[i]))
    ensures var r := DerivedConstraint(h); var f := CollectFacts(ProjList(h), |ProjList(h)|);
            r.cnstr.Some? &&
            forall row :: Holds(r.cnstr.value, row) <==>
              AllHold(f.cnstrs, row) && (h.relChild.ppc.cnstr.Some? ==> Holds(h.relChild.ppc.cnstr.value, row))
  {
    var elems := ProjList(h);
    NoFactsIff(elems, |elems|);
    var f := CollectFacts(elems, |elems|);
    forall row: Row
      ensures Holds(DerivedConstraint(h).cnstr.value, row) <==>
              AllHold(f.cnstrs, row) && (h.relChild.ppc.cnstr.Some? ==> Holds(h.relChild.ppc.cnstr.value, row))
    {
      ConjunctionWithChild(f.cnstrs, h.relChild.ppc.cnstr, row);
    }
  }

  /** A constrainable constant `c := v` puts its interval into the conjunction and `c`
      into a class of the result. */
  lemma ConstElementConstraint(h: ExprHandle, i: nat)
    requires IsProjectHandle(h)
    requires !ScalarChildAt(h, 1).props.hasSubquery && WellFormedList(ProjList(h))
    requires i < |ProjList(h)| && IsConstrainableConst(ProjList(h)[i])
    ensures var r := DerivedConstraint(h); var e := ProjList(h)[i];
            r.cnstr.Some? && r.cnstr.value.Conjunction? &&
            ConstInterval(e.col.id, e.expr.datum) in r.cnstr.value.conjuncts &&
            r.equivClasses.Some? && exists q :: q in r.equivClasses.value && e.col.id in q
  {
    var elems := ProjList(h);
    var cls := {elems[i].col.id};
    ElementFactsCollected(elems, i, |elems|);
    ChildFactsKept(h);
    WithinTransitive([cls], CollectFacts(elems, |elems|).classes, DerivedConstraint(h).equivClasses.value);
    assert cls in [cls];
  }

  /** Every row the derived constraint admits carries the constant's value in `c`,
      whatever node the conjunction builds. */
  lemma ConstElementMeaning(h: ExprHandle, i: nat)
    requires IsProjectHandle(h)
    requires !ScalarChildAt(h, 1).props.hasSubquery && WellFormedList(ProjList(h))
    requires i < |ProjList(h)| && IsConstrainableConst(ProjList(h)[i])
    ensures var r := DerivedConstraint(h); var e := ProjList(h)[i];
            r.cnstr.Some? &&
            forall row :: Holds(r.cnstr.value, row) ==> e.col.id in row && row[e.col.id] == DatumValue(e.expr.datum)
  {
    var elems := ProjList(h);
    var e := elems[i];
    var f := CollectFacts(elems, |elems|);
    var iv := ConstInterval(e.col.id, e.expr.datum);
    assert iv in f.cnstrs by {
      ConstFactsCollected(elems, i, |elems|);
    }
    var j :| 0 <= j < |f.cnstrs| && f.cnstrs[j] == iv;
    DerivedConstraintMeaning(h);
    var r := DerivedConstraint(h);
    forall row | Holds(r.cnstr.value, row)
      ensures e.col.id in row && row[e.col.id] == DatumValue(e.expr.datum)
    {
      assert Holds(f.cnstrs[j], row);
    }
  }

  /** A qualifying rename `c := a` puts `c` and `a` into one class of the result. */
  lemma RenameElementClass(h: ExprHandle, i: nat)
    requires IsProjectHandle(h)
    requires !ScalarChildAt(h, 1).props.hasSubquery && WellFormedList(ProjList(h))
    requires i < |ProjList(h)| && IsEquivRename(ProjList(h)[i])
    ensures var r := DerivedConstraint(h); var e := ProjList(h)[i];
            r.equivClasses.Some? &&
            exists q :: q in r.equivClasses.value && e.col.id in q && e.expr.col.id in q
  {
    var elems := ProjList(h);
    var cls := {elems[i].col.id, elems[i].expr.col.id};
    ElementFactsCollected(elems, i, |elems|);
    ChildFactsKept(h);
    WithinTransitive([cls], CollectFacts(elems, |elems|).classes, DerivedConstraint(h).equivClasses.value);
    assert cls in [cls];
  }

  // ---------------------------------------------------------------------------------
  // Soundness of the constraint derivation

  /** `out` is a row the project can produce from `childRow`: it extends the child's row,
      and each element's column carries the constant's value or the renamed column's value
      (other expressions are left unconstrained). */
  predicate IsProjectionOf(out: Row, childRow: Row, elems: seq<ProjElem>)
  {
    (forall k :: k in childRow ==> k in out && out[k] == childRow[k]) &&
    forall i :: 0 <= i < |elems| ==>
      elems[i].col.id in out &&
      (elems[i].expr.ScalarConst? ==> out[elems[i].col.id] == DatumValue(elems[i].expr.datum)) &&
      (elems[i].expr.ScalarIdent? ==>
         elems[i].expr.col.id in childRow && out[elems[i].col.id] == childRow[elems[i].expr.col.id])
  }

  predicate AllHold(cs: seq<Constraint>, row: Row)
  {
    forall i :: 0 <= i < |cs| ==> Holds(cs[i], row)
  }

  /** One element's step keeps the facts true of a row the project produces. */
  lemma StepSound(f: LocalFacts, e: ProjElem, out: Row, childRow: Row)
    requires RenameWellFormed(e)
    requires AllHold(f.cnstrs, out) && ClassesHold(f.classes, out)
    requires forall k :: k in childRow ==> k in out && out[k] == childRow[k]
    requires e.col.id in out
    requires e.expr.ScalarConst? ==> out[e.col.id] == DatumValue(e.expr.datum)
    requires e.expr.ScalarIdent? ==> e.expr.col.id in childRow && out[e.col.id] == childRow[e.expr.col.id]
    ensures AllHold(Step(f, e).cnstrs, out) && ClassesHold(Step(f, e).classes, out)
  {
    if IsConstrainableConst(e) {
      var iv := ConstInterval(e.col.id, e.expr.datum);
      assert Holds(iv, out);
      assert ClassHolds({e.col.id}, out);
      assert Step(f, e).cnstrs == f.cnstrs + [iv];
    } else if !e.expr.ScalarConst? && IsEquivRename(e) {
      var cls := {e.col.id, e.expr.col.id};
      assert ClassHolds(cls, out);
      MergeHolds(f.classes, [cls], out);
    }
  }

  /** Every fact collected from the list holds of every row the project produces. */
  lemma {:induction false} CollectFactsSound(elems: seq<ProjElem>, n: nat, out: Row, childRow: Row)
    requires WellFormedList(elems) && n <= |elems| && IsProjectionOf(out, childRow, elems)
    ensures AllHold(CollectFacts(elems, n).cnstrs, out)
    ensures ClassesHold(CollectFacts(elems, n).classes, out)
    decreases n
  {
    if n > 0 {
      CollectFactsSound(elems, n - 1, out, childRow);
      CollectFactsUnfold(elems, n - 1);
      StepSound(CollectFacts(elems, n - 1), elems[n - 1], out, childRow);
    }
  }

  /** Soundness: when the child's constraint property holds of the child's row, the
      derived property holds of every row the project produces from it. */
  lemma DerivedConstraintSound(h: ExprHandle, out: Row, childRow: Row)
    requires IsProjectHandle(h)
    requires !ScalarChildAt(h, 1).props.hasSubquery ==> WellFormedList(ProjList(h))
    requires IsProjectionOf(out, childRow, ProjList(h))
    requires PropConstraintHolds(h.relChild.ppc, childRow)
    ensures PropConstraintHolds(DerivedConstraint(h), out)
  {
    var child := h.relChild.ppc;
    PropConstraintHoldsOnExtension(child, childRow, out);
    if !ScalarChildAt(h, 1).props.hasSubquery {
      var elems := ProjList(h);
      CollectFactsSound(elems, |elems|, out, childRow);
      var f := CollectFacts(elems, |elems|);
      if child.equivClasses.Some? {
        MergeHolds(f.classes, child.equivClasses.value, out);
      }
    }
  }

  // ---------------------------------------------------------------------------------
  // Properties of the statistics map

  /** The map of the first `n` elements holds exactly the ids of their stats-mappable
      constants. */
  lemma {:induction false} ConstMapKeys(elems: seq<ProjElem>, n: nat)
    requires n <= |elems|
    ensures forall k :: k in ConstMap(elems, n) <==>
              exists i :: 0 <= i < n && IsStatsConst(elems[i]) && elems[i].col.id == k
    decreases n
  {
    if n > 0 {
      ConstMapKeys(elems, n - 1);
      forall k | k in ConstMap(elems, n)
        ensures exists i :: 0 <= i < n && IsStatsConst(elems[i]) && elems[i].col.id == k
      {
        if k !in ConstMap(elems, n - 1) {
          assert IsStatsConst(elems[n - 1]) && elems[n - 1].col.id == k;
        }
      }
    }
  }

  /** A key keeps the value it was first given as more elements are added. */
  lemma {:induction false} ConstMapStable(elems: seq<ProjElem>, k: ColId, n: nat, m: nat)
    requires n <= m <= |elems| && k in ConstMap(elems, n)
    ensures k in ConstMap(elems, m) && ConstMap(elems, m)[k] == ConstMap(elems, n)[k]
    decreases m
  {
    if n < m {
      ConstMapStable(elems, k, n, m - 1);
    }
  }

  /** Each id maps to the constant of the first stats-mappable element with that id; later
      elements with the same id do not overwrite it. */
  lemma ConstMapFirstWins(elems: seq<ProjElem>, i: nat)
    requires i < |elems| && IsStatsConst(elems[i])
    requires forall j :: 0 <= j < i ==> !(IsStatsConst(elems[j]) && elems[j].col.id == elems[i].col.id)
    ensures elems[i].col.id in ConstMap(elems, |elems|)
    ensures ConstMap(elems, |elems|)[elems[i].col.id] == elems[i].expr.datum
  {
    ConstMapKeys(elems, i);
    assert elems[i].col.id !in ConstMap(elems, i);
    ConstMapStable(elems, elems[i].col.id, i + 1, |elems|);
  }

  /** With distinct column ids, every stats-mappable constant element is in the map with
      its own constant. */
  lemma ConstMapOfDistinct(elems: seq<ProjElem>)
    requires forall i, j :: 0 <= i < j < |elems| && IsStatsConst(elems[i]) && IsStatsConst(elems[j]) ==>
               elems[i].col.id != elems[j].col.id
    ensures forall i :: 0 <= i < |elems| && IsStatsConst(elems[i]) ==>
              elems[i].col.id in ConstMap(elems, |elems|) && ConstMap(elems, |elems|)[elems[i].col.id] == elems[i].expr.datum
  {
    forall i | 0 <= i < |elems| && IsStatsConst(elems[i])
      ensures elems[i].col.id in ConstMap(elems, |elems|) && ConstMap(elems, |elems|)[elems[i].col.id] == elems[i].expr.datum
    {
      ConstMapFirstWins(elems, i);
    }
  }

  // ---------------------------------------------------------------------------------
  // Worked examples

  /** `b := a` over a non-nullable base-table column of a constrainable type puts `a` and
      `b` into one class. */
  lemma RenameOfNonNullableColumn(h: ExprHandle, a: ColRef, b: ColRef)
    requires IsProjectHandle(h) && !ScalarChildAt(h, 1).props.hasSubquery
    requires ProjList(h) == [ProjElem(b, ScalarIdent(a))]
    requires a.id != b.id && a.typ == b.typ && a.typ.constrainable
    requires a.origin == EcrtTable && !a.nullable
    ensures DerivedConstraint(h).equivClasses.Some?
    ensures exists q :: q in DerivedConstraint(h).equivClasses.value && a.id in q && b.id in q
  {
    RenameElementClass(h, 0);
  }

  /** `b := a` over a nullable column yields no class, and a list holding only that element
      passes the child's constraint property on. */
  lemma RenameOfNullableColumn(h: ExprHandle, a: ColRef, b: ColRef)
    requires IsProjectHandle(h) && !ScalarChildAt(h, 1).props.hasSubquery
    requires ProjList(h) == [ProjElem(b, ScalarIdent(a))]
    requires a.id != b.id && a.typ == b.typ && a.nullable
    ensures PdrgpcrsEquivClassFromScIdent(ProjElem(b, ScalarIdent(a))).None?
    ensures DerivedConstraint(h) == h.relChild.ppc
  {
    ConstraintPassThrough(h);
  }

  /** `c := 5` gives the point interval `c = 5`; `c := NULL` gives an interval with no
      ranges that admits null. */
  lemma ConstantIntervals(c: ColId, t: MDType)
    ensures ConstInterval(c, Datum(t, false, 5, true)) == Interval(c, [Range(EcmptEq, Datum(t, false, 5, true))], false)
    ensures forall v :: ConstInterval(c, Datum(t, true, v, false)) == Interval(c, [], true)
  {
  }

  /** Merging one class into no classes gives that class alone. */
  lemma MergeIntoEmpty(cls: ColSet)
    ensures MergeEquivClasses([], [cls]) == [cls]
  {
    var none: seq<ColSet> := [];
    var one: seq<ColSet> := [cls];
    assert Touching(none, cls) == {};
    assert Untouched(none, cls) == none;
    assert cls + Touching(none, cls) == cls;
    assert [cls] + none == one;
    assert AddClass(none, cls) == one;
    assert one[1..] == none;
    assert MergeEquivClasses(none, one) == MergeEquivClasses(one, none);
  }

  /** The facts of a two-element list are its two steps from no facts. */
  lemma TwoElements(elems: seq<ProjElem>)
    requires WellFormedList(elems) && |elems| == 2
    ensures RenameWellFormed(elems[0]) && RenameWellFormed(elems[1])
    ensures CollectFacts(elems, 2) == Step(Step(LocalFacts([], []), elems[0]), elems[1])
  {
    CollectFactsUnfold(elems, 0);
    CollectFactsUnfold(elems, 1);
  }

  /** A qualifying rename as the first element yields its class alone. */
  lemma RenameFirst(e: ProjElem)
    requires RenameWellFormed(e) && IsEquivRename(e)
    ensures Step(LocalFacts([], []), e) == LocalFacts([], [{e.col.id, e.expr.col.id}])
  {
    MergeIntoEmpty({e.col.id, e.expr.col.id});
  }

  /** A non-null constrainable constant appends its point interval and its class. */
  lemma ConstNext(f: LocalFacts, e: ProjElem)
    requires IsConstrainableConst(e) && !e.expr.datum.isNull
    ensures Step(f, e) == LocalFacts(f.cnstrs + [Interval(e.col.id, [Range(EcmptEq, e.expr.datum)], false)],
                                     f.classes + [{e.col.id}])
  {
  }

  /** A qualifying rename followed by a non-null constrainable constant: the constant's
      point interval, the rename's class and the constant's singleton class. */
  lemma RenameThenConstant(elems: seq<ProjElem>)
    requires WellFormedList(elems) && |elems| == 2
    requires IsEquivRename(elems[0]) && IsConstrainableConst(elems[1]) && !elems[1].expr.datum.isNull
    ensures CollectFacts(elems, 2) ==
              LocalFacts([Interval(elems[1].col.id, [Range(EcmptEq, elems[1].expr.datum)], false)],
                         [{elems[0].col.id, elems[0].expr.col.id}, {elems[1].col.id}])
  {
    var f1 := LocalFacts([], [{elems[0].col.id, elems[0].expr.col.id}]);
    var f2 := Step(f1, elems[1]);
    assert CollectFacts(elems, 2) == Step(Step(LocalFacts([], []), elems[0]), elems[1]) by {
      TwoElements(elems);
    }
    assert Step(LocalFacts([], []), elems[0]) == f1 by {
      RenameFirst(elems[0]);
    }
    ConstNext(f1, elems[1]);
  }

  /** The facts of `[b := a, c := 5]`: the point interval on `c`, and the classes `{a, b}`
      and `{c}`. */
  lemma FactsOfRenameAndConstant(elems: seq<ProjElem>, a: ColRef, b: ColRef, c: ColRef, five: Datum)
    requires elems == [ProjElem(b, ScalarIdent(a)), ProjElem(c, ScalarConst(five))]
    requires a.id != b.id && a.typ == b.typ && a.typ.constrainable
    requires a.origin == EcrtTable && !a.nullable
    requires c.typ.constrainable && five == Datum(c.typ, false, 5, true)
    ensures WellFormedList(elems)
    ensures CollectFacts(elems, 2) ==
              LocalFacts([Interval(c.id, [Range(EcmptEq, five)], false)], [{b.id, a.id}, {c.id}])
  {
    RenameThenConstant(elems);
  }

  /** `[b := a, c := 5]` over a child with constraint `k` and no classes: the classes are
      `{a, b}` and `{c}`, and the constraint is the point interval on `c` conjoined with `k`. */
  lemma RenameAndConstant(h: ExprHandle, a: ColRef, b: ColRef, c: ColRef, five: Datum, k: Constraint)
    requires IsProjectHandle(h) && !ScalarChildAt(h, 1).props.hasSubquery
    requires ProjList(h) == [ProjElem(b, ScalarIdent(a)), ProjElem(c, ScalarConst(five))]
    requires a.id != b.id && a.typ == b.typ && a.typ.constrainable
    requires a.origin == EcrtTable && !a.nullable
    requires c.typ.constrainable && five == Datum(c.typ, false, 5, true)
    requires h.relChild.ppc == PropConstraint(None, Some(k))
    ensures DerivedConstraint(h) ==
              PropConstraint(Some([{b.id, a.id}, {c.id}]),
                             Some(Conjunction([Interval(c.id, [Range(EcmptEq, five)], false), k])))
  {
    FactsOfRenameAndConstant(ProjList(h), a, b, c, five);
    var point := Interval(c.id, [Range(EcmptEq, five)], false);
    assert [point] + [k] == [point, k];
  }

  /** The same project admits exactly the rows with `c = 5` that satisfy `k`. */
  lemma RenameAndConstantMeaning(h: ExprHandle, a: ColRef, b: ColRef, c: ColRef, five: Datum, k: Constraint)
    requires IsProjectHandle(h) && !ScalarChildAt(h, 1).props.hasSubquery
    requires ProjList(h) == [ProjElem(b, ScalarIdent(a)), ProjElem(c, ScalarConst(five))]
    requires a.id != b.id && a.typ == b.typ && a.typ.constrainable
    requires a.origin == EcrtTable && !a.nullable
    requires c.typ.constrainable && five == Datum(c.typ, false, 5, true)
    requires h.relChild.ppc == PropConstraint(None, Some(k))
    ensures DerivedConstraint(h).cnstr.Some?
    ensures forall row :: Holds(DerivedConstraint(h).cnstr.value, row) <==>
              c.id in row && row[c.id] == Val(5) && Holds(k, row)
  {
    var elems := ProjList(h);
    var point := Interval(c.id, [Range(EcmptEq, five)], false);
    assert CollectFacts(elems, 2).cnstrs == [point] by {
      FactsOfRenameAndConstant(elems, a, b, c, five);
    }
    assert IsConstrainableConst(elems[1]);
    DerivedConstraintMeaning(h);
    assert point == ConstInterval(c.id, five);
    forall row: Row
      ensures AllHold([point], row) <==> c.id in row && row[c.id] == Val(5)
    {
      assert [point][0] == point;
    }
  }
}
