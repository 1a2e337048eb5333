/** Column references, catalog types, constants, cardinality bounds, hashes and the
    identifiers of operators and transformation rules that the logical operators share. */
module Base {

  datatype Option<+T> = None | Some(value: T)

  /** The one failure the operators in this model can raise: an unknown column id. */
  datatype Error = LookupFailure

  datatype Result<+T> = Ok(value: T) | Err(error: Error)

  /** A column id; unique within one optimization session (CColRef::Id). */
  type ColId = nat

  type ColSet = set<ColId>

  /** The type-info tag of a catalog type; only the int8 tag is tested by the operators. */
  datatype TypeInfo = EtiInt8 | EtiOther

  /** A catalog type as far as the operators look at it: its metadata id, its type-info tag,
      and whether interval constraints can be built over it (the catalog fact that
      CUtils::FConstrainableType reports). */
  datatype MDType = MDType(mdid: nat, info: TypeInfo, constrainable: bool)

  /** Whether a column comes from a base table or is computed by an operator. */
  datatype ColOrigin = EcrtTable | EcrtComputed

  /** A column reference: id, type, origin and, for base-table columns, nullability. */
  datatype ColRef = ColRef(id: ColId, typ: MDType, origin: ColOrigin, nullable: bool)

  /** A scalar constant. `value` is the payload of a non-null datum; `statsMappable`
      is what IDatum::StatsMappable answers for it. */
  datatype Datum = Datum(typ: MDType, isNull: bool, value: int, statsMappable: bool)

  /** The value of a column in one row; used only to state what constraints mean. */
  datatype Value = Null | Val(v: int)

  type Row = map<ColId, Value>

  function DatumValue(d: Datum): (r: Value)
    ensures r.Null? <==> d.isNull
    ensures r.Val? ==> r.v == d.value
  {
    if d.isNull then Null else Val(d.value)
  }

  /** Unsigned 64-bit integers (ULLONG) and the cardinality bound built on them. */
  const ULLONG_MAX: int := 0xFFFF_FFFF_FFFF_FFFF

  type Ullong = x: int | 0 <= x <= ULLONG_MAX

  /** CMaxCard: an upper bound on the number of rows; ULLONG_MAX stands for "unbounded". */
  datatype MaxCard = MaxCard(ull: Ullong)

  /** The default-constructed CMaxCard. */
  const Unbounded: MaxCard := MaxCard(ULLONG_MAX)

  /** The implicit C++ conversion of a signed 64-bit value to ULLONG (two's complement
      reinterpretation). */
  function LintToUllong(x: int): (r: Ullong)
    ensures 0 <= x <= ULLONG_MAX ==> r == x
    ensures -0x8000_0000_0000_0000 <= x < 0 ==> r == x + 0x1_0000_0000_0000_0000
  {
    x % 0x1_0000_0000_0000_0000
  }

  /** 32-bit hash values (ULONG). */
  type Ulong = bv32

  /** Stand-in for gpos::CombineHashes: rotate the first hash left by five bits and fold
      in the second. Only determinism matters to the properties proved here. */
  function CombineHashes(h1: Ulong, h2: Ulong): (r: Ulong)
  {
    ((h1 << 5) | (h1 >> 27)) ^ h2
  }

  /** Stand-in for gpos::HashValue<BOOL>. */
  function HashBool(b: bool): (r: Ulong)
  {
    if b then 1 else 0
  }

  /** Stand-in for the hash of a column pointer; column ids are unique per session, so
      hashing the id hashes the column. */
  function HashColId(id: ColId): (r: Ulong)
  {
    (id % 0x1_0000_0000) as bv32
  }

  /** Operator kinds (COperator::EOperatorId), the two modelled here and all others. */
  datatype OperatorId = EopLogicalLimit | EopLogicalProject | EopOther(n: nat)

  /** Stand-in for COperator::HashValue, which hashes the operator id. */
  function HashOperatorId(id: OperatorId): (r: Ulong)
  {
    match id
    case EopLogicalLimit => 1
    case EopLogicalProject => 2
    case EopOther(n) => CombineHashes(3, HashColId(n))
  }

  /** The transformation rules the two operators register as candidates. */
  datatype XformId =
    | ExfImplementLimit
    | ExfSplitLimit
    | ExfSimplifyProjectWithSubquery
    | ExfProject2Apply
    | ExfProject2ComputeScalar
    | ExfCollapseProject
}
