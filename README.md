# Logical Limit and Logical Project of the query optimizer, in Dafny

This project models two logical operators of the query optimizer and proves
properties of the model:

- **Logical Limit** (`CLogicalLimit`): keep at most K rows of its input under an
  order spec.
- **Logical Project** (`CLogicalProject`): its input's columns plus the columns a
  project list `col := expr` defines.

What is modelled differs by operator, as the two source files differ:

- **Logical Limit:** the operator's identity (construction, the pattern
  instance, operator-level matching, hashing, and copying with remapped
  columns). It also derives output columns, outer references, keys, max
  cardinality, the columns needed for statistics, statistics, and the candidate
  transformation rules. The limit file has no constraint-property derivation of
  its own.
- **Logical Project:** output columns, keys, max cardinality, the constraint
  property, statistics and the candidate transformation rules. The project file
  has no matching, remapping, outer-reference or statistics-column code of its
  own.

## Layout

| file | module | contents |
|---|---|---|
| `base.dfy` | `Base` | column references, catalog types, constants, `CMaxCard`, 32-bit hashes, operator and rule ids, the ULLONG conversion |
| `order_spec.dfy` | `OrderSpecs` | the order spec a limit carries: matching, hashing, used columns, remapped copy |
| `constraints.dfy` | `Constraints` | interval and conjunction constraints and what they say about a row |
| `equiv_classes.dfy` | `EquivClasses` | equivalence classes of columns and their merge |
| `statistics.dfy` | `Stats` | statistics objects with their row estimate |
| `derived_props.dfy` | `DerivedProps` | the expression handle: the relational child's derived properties, the scalar children and the rules inherited from `CLogical` |
| `logical_limit.dfy` | `Limit` | class `LogicalLimit` |
| `logical_project.dfy` | `Project` | the project operator, which has no state of its own |

`LogicalLimit` is a class:

- Its parameters are `const` fields.
- Its locally used columns are a field that the constructor fills in after
  allocation, as the C++ constructor does on `m_pcrsLocalUsed`.
- The remapped copy is a method that allocates a fresh limit.

The project operator has no fields, so its derivations are module-level
members. Two of its derivations are loops in the source, and each becomes a
method proved against a recursive specification function:

- `PpcDeriveConstraint` is proved against `DerivedConstraint`, which is built on
  `CollectFacts`.
- `PstatsDerive` is proved against `ConstMap`.

`PpcDeriveConstraint` allocates two dynamic arrays itself
(`CLogicalProject.cpp:234-235`). It passes them to
`ExtractConstraintFromScConst`, which appends to arrays its caller owns
(`CLogicalProject.cpp:161-168`). The arrays are modelled as the classes
`ConstraintArray` and `ColRefSetArray`.

### Behaviours of the code worth noting

- **Limit max cardinality.** A literal count K gives `CMaxCard(K)` itself, not
  `min(child bound, K)` (`CLogicalLimit.cpp:227-232`). So a limit of 10 over a
  child bounded by 3 derives 10.
- **Negative int8 counts.** The int8 value is converted to an unsigned 64-bit
  integer implicitly, by two's-complement reinterpretation. A negative literal
  therefore yields a huge bound. `Base.LintToUllong` models that conversion.
- **Remapping without `mustExist`.** The order spec's copy routine would create a
  fresh column for one missing from the mapping. That routine is not part of
  this model, and the model keeps the column (see "Left out").

### Stand-ins for callees outside the two operator files

Each callee whose code lies outside the two operator files is a small concrete
definition. Its contract states the one property the operators rely on:

| callee | stand-in |
|---|---|
| `CUtils::PdrgpcrsMergeEquivClasses` | adding the classes one at a time, each absorbing every class it shares a column with. `MergeEquivClasses` proves the result mentions exactly the columns of both inputs, keeps every equality of both, and stays a partition when the first input is one. |
| `CConstraint::PcnstrConjunction` | the conjunction node. It holds of a row exactly when every conjunct does. |
| `CLimitStatsProcessor::CalcLimitStats` | a new statistics object with the bound as its row count. |
| `CLogical::PstatsDeriveProject` | a new statistics object carrying the constant map. It keeps the row count. |
| `CLogical::PcrsDeriveOuter` | columns used locally but not produced by the child, plus the child's outer references. |
| `CLogical::PcrsReqdChildStats` | the requested and used columns that the child produces. |
| `COrderSpec` matching and hashing | matching compares the keys position by position. The hash folds the key columns' ids. |
| `gpos::CombineHashes` | a rotate-and-xor on 32 bits. |
| `CUtils::FScalarConstInt<IMDTypeInt8>` | `Limit.FScalarConstInt8`: the count is a constant whose type is int8. |

The constraint property gets a meaning on rows: a row is a map from column id to
a value or null. On that basis the model proves soundness: when the child's
constraint property holds of the child's row, the project's derived property
holds of every row the project can produce from it.

## Model

| member | source | states |
|---|---|---|
| `Limit.LogicalLimit.Pattern` | libgpopt/src/operators/CLogicalLimit.cpp:39-51 | the pattern limit has no order spec, is global, has no count, is removable, is a pattern, and uses no columns locally |
| `Limit.LogicalLimit.constructor` | libgpopt/src/operators/CLogicalLimit.cpp:62-81 | the limit stores its order spec and three flags, and its locally used columns are exactly the columns of the order spec |
| `Limit.LogicalLimit.Matches` | libgpopt/src/operators/CLogicalLimit.cpp:125-145 | a limit matches an operator exactly when that operator is a limit with the same global and has-count flags and the two order specs match |
| `OrderSpecs.PosMatchesEquivalence` | libgpopt/src/operators/CLogicalLimit.cpp:138-141 | order-spec matching, on which limit matching rests, is reflexive, symmetric and transitive |
| `OrderSpecs.PosMatchesImpliesEqualHash` | libgpopt/src/operators/CLogicalLimit.cpp:106-114 | matching order specs hash alike |
| `Limit.LogicalLimit.HashValue` | libgpopt/src/operators/CLogicalLimit.cpp:106-114 | the hash combines the operator id, the order spec's hash and the global and has-count flags; its contract is stated by `Limit.MatchesImpliesEqualHash` and `Limit.MatchesIgnoresTopLimitUnderDml` |
| `Limit.MatchesImpliesEqualHash` | libgpopt/src/operators/CLogicalLimit.cpp:106-145 | two limits that match have equal operator hashes |
| `Limit.MatchesIgnoresTopLimitUnderDml` | libgpopt/src/operators/CLogicalLimit.cpp:106-145 | the non-removable flag plays no part in matching or hashing: limits that differ only in it match both ways and hash alike |
| `OrderSpecs.PosUsed` | libgpopt/src/operators/CLogicalLimit.cpp:78-79 | the used columns of an order spec are exactly the ids of its key columns |
| `OrderSpecs.RemapCol` | libgpopt/src/operators/CLogicalLimit.cpp:156-167 | a mapped column is replaced by its image; an unmapped column fails with a lookup failure exactly when it must exist, and is kept otherwise |
| `OrderSpecs.RemapItems` | libgpopt/src/operators/CLogicalLimit.cpp:156-167 | remapping the sort keys succeeds exactly when every key's column remaps, and then replaces each key's column and nothing else |
| `OrderSpecs.PosRemap` | libgpopt/src/operators/CLogicalLimit.cpp:162-166 | the remapped order spec fails exactly when a used column is unmapped and must exist; otherwise it has the same length, sort operators and null placement, with each column remapped |
| `OrderSpecs.RemapUsed` | libgpopt/src/operators/CLogicalLimit.cpp:156-167 | the columns a remapped order spec uses are exactly the images of the original's used columns |
| `OrderSpecs.RemapIdentity` | libgpopt/src/operators/CLogicalLimit.cpp:156-167 | remapping through a mapping that fixes every used column returns the same order spec |
| `Limit.LogicalLimit.PopCopyWithRemappedColumns` | libgpopt/src/operators/CLogicalLimit.cpp:156-167 | the copy fails exactly when the order spec's remap fails; otherwise it is a fresh limit that keeps all three flags, holds the remapped order spec, and uses its columns locally |
| `Limit.LogicalLimit.PcrsDeriveOutput` | libgpopt/src/operators/CLogicalLimit.cpp:177-185 | a limit outputs exactly its child's columns |
| `DerivedProps.DeriveOuterGeneric` | libgpopt/src/operators/CLogicalLimit.cpp:196-208 | a column is an outer reference exactly when the child escalates it, or it is used locally and the child does not produce it |
| `Limit.LogicalLimit.PcrsDeriveOuter` | libgpopt/src/operators/CLogicalLimit.cpp:196-208 | the limit's outer references count the order spec's columns as locally used, alongside those of the scalar children |
| `Base.LintToUllong` | libgpopt/src/operators/CLogicalLimit.cpp:227-232 | the conversion of the int8 count to ULLONG keeps non-negative values and adds 2^64 to negative ones |
| `Limit.LogicalLimit.Maxcard` | libgpopt/src/operators/CLogicalLimit.cpp:218-237 | a literal int8 count K bounds the rows by K as an unsigned 64-bit value (a negative K wraps); any other count leaves the child's bound |
| `Limit.LogicalLimit.PxfsCandidates` | libgpopt/src/operators/CLogicalLimit.cpp:248-261 | the candidate rules are exactly limit implementation and limit split |
| `DerivedProps.PcrsReqdChildStats` | libgpopt/src/operators/CLogicalLimit.cpp:289 | the needed statistics columns are the requested and used columns, restricted to what the child produces |
| `Limit.LogicalLimit.PcrsStat` | libgpopt/src/operators/CLogicalLimit.cpp:272-293 | the child's statistics columns are exactly the child's output columns that are requested or used by the offset or the count |
| `Limit.LogicalLimit.PkcDeriveKeys` | libgpopt/src/operators/CLogicalLimit.cpp:304-313 | the keys are the child's keys |
| `Stats.CalcLimitStats` | libgpopt/src/operators/CLogicalLimit.cpp:364 | the limited statistics are a new object whose row estimate is the bound |
| `Limit.LogicalLimit.PstatsDerive` | libgpopt/src/operators/CLogicalLimit.cpp:344-365 | the child's statistics object is returned exactly when its row estimate is within the max cardinality; otherwise the result is the limited statistics; either way the estimate is at most both the bound and the child's estimate |
| `Limit.LimitTenOverMillionRows` | libgpopt/src/operators/CLogicalLimit.cpp:344-365 | a literal count of 10 over a million-row child gives a bound of 10 and limited statistics of 10 rows |
| `Limit.LimitTenOverFiveRows` | libgpopt/src/operators/CLogicalLimit.cpp:344-365 | a literal count of 10 over a five-row child gives a bound of 10 and hands on the child's statistics object itself |
| `Project.PcrsDeriveOutput` | libgpopt/src/operators/CLogicalProject.cpp:56-72 | a project outputs exactly the child's columns and the columns its project list defines |
| `Project.PkcDeriveKeys` | libgpopt/src/operators/CLogicalProject.cpp:83-92 | the keys are the child's keys |
| `Project.PdrgpcrsEquivClassFromScIdent` | libgpopt/src/operators/CLogicalProject.cpp:103-150 | an element yields a class exactly when it is a rename `c := a` of a constrainable type whose source is a non-nullable base-table column; the class is then `{c, a}` |
| `Project.ConstInterval` | libgpopt/src/operators/CLogicalProject.cpp:189-202 | the interval built for a constant admits a row exactly when the column is present and carries the constant's value, or null for a null constant |
| `Project.ExtractConstraintFromScConst` | libgpopt/src/operators/CLogicalProject.cpp:161-207 | a constant of a constrainable type appends its interval and its singleton class to the caller's arrays; anything else leaves both arrays unchanged |
| `EquivClasses.MergeEquivClasses` | libgpopt/src/operators/CLogicalProject.cpp:254-260 | the merged classes mention exactly the columns of both inputs, keep every class of both inside some class, and are disjoint when the first input is |
| `EquivClasses.MergeHolds` | libgpopt/src/operators/CLogicalProject.cpp:254-260 | merging classes that hold of a row gives classes that hold of it |
| `Constraints.PcnstrConjunction` | libgpopt/src/operators/CLogicalProject.cpp:295 | the conjunction holds of a row exactly when every conjunct does |
| `Project.PpcDeriveConstraint` | libgpopt/src/operators/CLogicalProject.cpp:218-298 | the loop over the project list and the combination with the child's property compute exactly the derived constraint property |
| `Project.StepGrows` | libgpopt/src/operators/CLogicalProject.cpp:238-262 | handling one more element never drops an interval or an equality found so far |
| `Project.CollectFactsGrows` | libgpopt/src/operators/CLogicalProject.cpp:238-262 | the facts of a prefix of the list survive the remaining elements |
| `Project.ElementFactsCollected` | libgpopt/src/operators/CLogicalProject.cpp:238-262 | every constrainable constant contributes its interval and a class holding its column, and every qualifying rename a class holding both its columns |
| `Project.ClassSurvives` | libgpopt/src/operators/CLogicalProject.cpp:238-262 | a class found among the facts of a prefix of the list stays within the classes as the remaining elements are handled |
| `Project.ConstFactsCollected` | libgpopt/src/operators/CLogicalProject.cpp:161-207 | a constrainable constant element leaves its interval and a class holding its column in the collected facts |
| `Project.RenameFactsCollected` | libgpopt/src/operators/CLogicalProject.cpp:243-261 | a qualifying rename element leaves a class holding both its columns in the collected facts |
| `Project.NoFactsIff` | libgpopt/src/operators/CLogicalProject.cpp:238-271 | the list yields no facts exactly when it has no constrainable constant and no qualifying rename |
| `Project.ConstraintPassThrough` | libgpopt/src/operators/CLogicalProject.cpp:226-271 | with a subquery, or with no qualifying element, the child's constraint property is passed on |
| `Project.ChildFactsKept` | libgpopt/src/operators/CLogicalProject.cpp:273-297 | when facts are found, the result keeps every local interval and equality and every equality and constraint of the child |
| `Project.ConstElementConstraint` | libgpopt/src/operators/CLogicalProject.cpp:218-298 | a constrainable constant `c := v` puts its interval into the result's conjunction and `c` into one of its classes |
| `Project.ConstElementMeaning` | libgpopt/src/operators/CLogicalProject.cpp:218-298 | every row the derived constraint of a list with a constrainable constant `c := v` admits has `c` present with the value of `v` |
| `Project.ConjunctionWithChild` | libgpopt/src/operators/CLogicalProject.cpp:287-295 | the conjunction of the local intervals with the child's constraint, if any, holds of a row exactly when every interval holds and the child's constraint does |
| `Project.DerivedConstraintMeaning` | libgpopt/src/operators/CLogicalProject.cpp:273-298 | when facts are found, the derived constraint holds of a row exactly when every local interval and the child's constraint hold of it |
| `Project.RenameElementClass` | libgpopt/src/operators/CLogicalProject.cpp:218-298 | a qualifying rename `c := a` puts `c` and `a` into one class of the result |
| `Project.StepSound` | libgpopt/src/operators/CLogicalProject.cpp:240-261 | handling one element keeps every fact true of a row the project produces |
| `Project.CollectFactsSound` | libgpopt/src/operators/CLogicalProject.cpp:238-262 | every interval and class collected from the list holds of every row the project produces |
| `Project.DerivedConstraintSound` | libgpopt/src/operators/CLogicalProject.cpp:218-298 | when the child's constraint property holds of the child's row, the derived property holds of every row the project produces from it |
| `Project.RenameOfNonNullableColumn` | libgpopt/src/operators/CLogicalProject.cpp:135-147 | `b := a` over a non-nullable base-table column gives a class containing `a` and `b` |
| `Project.RenameOfNullableColumn` | libgpopt/src/operators/CLogicalProject.cpp:135-149 | `b := a` over a nullable column gives no class, and a list of only that element passes the child's property on |
| `Project.ConstantIntervals` | libgpopt/src/operators/CLogicalProject.cpp:189-202 | `c := 5` gives the single equality range at 5, and `c := NULL` gives no ranges with null admitted |
| `Project.TwoElements` | libgpopt/src/operators/CLogicalProject.cpp:238-262 | the facts of a two-element list are the two elements' steps taken in order from no facts |
| `Project.RenameThenConstant` | libgpopt/src/operators/CLogicalProject.cpp:238-262 | a qualifying rename followed by a non-null constrainable constant collects the constant's point interval, the rename's class and the constant's singleton class |
| `Project.FactsOfRenameAndConstant` | libgpopt/src/operators/CLogicalProject.cpp:238-262 | `[b := a, c := 5]` collects the point interval on `c` and the classes `{a, b}` and `{c}` |
| `Project.RenameAndConstant` | libgpopt/src/operators/CLogicalProject.cpp:218-298 | `[b := a, c := 5]` over a child with constraint `k` derives the classes `{a, b}`, `{c}` and the conjunction of the point interval on `c` with `k` |
| `Project.RenameAndConstantMeaning` | libgpopt/src/operators/CLogicalProject.cpp:218-298 | the same project admits exactly the rows that have `c = 5` and satisfy `k` |
| `Project.Maxcard` | libgpopt/src/operators/CLogicalProject.cpp:309-325 | a project list with a set-returning function makes the bound unbounded; otherwise the child's bound is kept |
| `Project.PxfsCandidates` | libgpopt/src/operators/CLogicalProject.cpp:335-350 | the candidate rules are exactly subquery simplification, project-to-apply, project-to-compute-scalar and project collapse |
| `Stats.PstatsDeriveProject` | libgpopt/src/operators/CLogicalProject.cpp:398 | projection statistics keep the child's row estimate |
| `Project.PstatsDerive` | libgpopt/src/operators/CLogicalProject.cpp:360-404 | the loop builds the map of stats-mappable constants of the list, and the statistics built from it keep the child's row estimate |
| `Project.ConstMapKeys` | libgpopt/src/operators/CLogicalProject.cpp:375-396 | the map's keys are exactly the column ids of the stats-mappable constant elements |
| `Project.ConstMapStable` | libgpopt/src/operators/CLogicalProject.cpp:390-393 | a column id keeps the value it was first given, since inserting a present key changes nothing |
| `Project.ConstMapFirstWins` | libgpopt/src/operators/CLogicalProject.cpp:375-396 | each id maps to the constant of the first stats-mappable element with that id |
| `Project.ConstMapOfDistinct` | libgpopt/src/operators/CLogicalProject.cpp:375-396 | when the ids are distinct, as the insertion assertion expects, every stats-mappable constant is in the map with its own value |

## Left out

- Memory pools, reference counting, `AddRef`/`Release` and destructors: the model works on values and fresh objects, so there is nothing to free.
- `CLogicalLimit::OsPrint`: debug printing, with no effect on derivation.
- `CDouble` row estimates are modelled as exact reals. The rounding of the `ULLONG` bound to a double above 2^53 is not modelled.
- `CLogicalLimit::PstatsDerive`: the assertion that the stats-promise level is above none is a debug check on the caller. It is not a precondition here.
- `Project.PstatsDerive`: the debug assertion that every insertion succeeds is not a precondition. A later element with an already-mapped column id leaves the map unchanged, which is what the map's insert does. `ConstMapOfDistinct` states the case the assertion expects.
- `OrderSpecs.RemapCol`: with `mustExist` false, a column missing from the mapping is kept as it is. The column factory that would create a fresh column and record it in the mapping is not part of this model.
- The operator-level hash is modelled with stand-in hash functions, because only determinism matters. Bit-exact agreement with `gpos::CombineHashes` and the pointer hashes is not claimed.
- The callees listed under "Stand-ins" are modelled by the contracts stated there, not by their own code.
- `CLogicalProject`'s constructor has no effect beyond its base class, and `CLogicalProject` has no parameters, matching or remapping of its own. None of these are modelled.
- The expression handle's lazy, memoised derivation of child properties, and the session's column registry, are not modelled. Derived properties of the children are inputs to every derivation.
- Datum values are modelled as integers ordered as integers. The source compares them with the comparator of the optimizer context (`CLogicalProject.cpp:196`), which is not part of this model.
- `Project.PkcDeriveKeys` passes the child's keys on even when the project list has a set-returning function (`CLogicalProject.cpp:83-92`), although `Project.Maxcard` then treats the row count as unbounded (`CLogicalProject.cpp:317-321`). The model follows the code.
