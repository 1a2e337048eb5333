/** The ordering specification a limit carries (COrderSpec): a list of sort keys. Only the
    services the limit operator calls are modelled: matching, hashing, the used columns
    and the column-remapping copy. */
module OrderSpecs {
  import opened Base

  datatype NullsTreatment = EntAuto | EntFirst | EntLast

  /** One sort key: the sort operator's metadata id, the column and the placement of nulls. */
  datatype OrderExpr = OrderExpr(sortOp: nat, col: ColRef, nulls: NullsTreatment)

  datatype OrderSpec = OrderSpec(items: seq<OrderExpr>)

  /** Two sort keys match when they use the same sort operator, the same column and the
      same null placement. Columns are compared by id, the model of pointer identity. */
  predicate OrderExprMatches(a: OrderExpr, b: OrderExpr)
  {
    a.sortOp == b.sortOp && a.col.id == b.col.id && a.nulls == b.nulls
  }

  /** COrderSpec::Matches: same length and matching keys position by position. */
  predicate PosMatches(a: OrderSpec, b: OrderSpec)
  {
    |a.items| == |b.items| &&
    forall i :: 0 <= i < |a.items| ==> OrderExprMatches(a.items[i], b.items[i])
  }

  /** Matching is an equivalence relation on order specs. */
  lemma PosMatchesEquivalence(a: OrderSpec, b: OrderSpec, c: OrderSpec)
    ensures PosMatches(a, a)
    ensures PosMatches(a, b) ==> PosMatches(b, a)
    ensures PosMatches(a, b) && PosMatches(b, c) ==> PosMatches(a, c)
  {
  }

  /** Hash of a list of sort keys: the column hashes folded left to right. */
  function ItemsHash(items: seq<OrderExpr>): (r: Ulong)
  {
    if |items| == 0 then 0
    else CombineHashes(ItemsHash(items[..|items| - 1]), HashColId(items[|items| - 1].col.id))
  }

  /** COrderSpec::HashValue. */
  function PosHash(pos: OrderSpec): (r: Ulong)
  {
    ItemsHash(pos.items)
  }

  lemma {:induction false} ItemsHashOfMatching(a: seq<OrderExpr>, b: seq<OrderExpr>)
    requires |a| == |b|
    requires forall i :: 0 <= i < |a| ==> a[i].col.id == b[i].col.id
    ensures ItemsHash(a) == ItemsHash(b)
  {
    if |a| > 0 {
      ItemsHashOfMatching(a[..|a| - 1], b[..|b| - 1]);
    }
  }

  /** The hash is consistent with matching. */
  lemma PosMatchesImpliesEqualHash(a: OrderSpec, b: OrderSpec)
    requires PosMatches(a, b)
    ensures PosHash(a) == PosHash(b)
  {
    ItemsHashOfMatching(a.items, b.items);
  }

  /** COrderSpec::PcrsUsed: the ids of the columns the sort keys use. */
  function PosUsed(pos: OrderSpec): (r: ColSet)
    ensures forall id :: id in r <==> exists i :: 0 <= i < |pos.items| && pos.items[i].col.id == id
  {
    set i | 0 <= i < |pos.items| :: pos.items[i].col.id
  }

  /** Remapping one column: a column in the mapping is replaced; a missing column is a
      lookup failure when it must exist and is kept otherwise. */
  function RemapCol(col: ColRef, mapping: map<ColId, ColRef>, mustExist: bool): (r: Result<ColRef>)
    ensures r.Err? <==> mustExist && col.id !in mapping
    ensures r.Ok? && col.id in mapping ==> r.value == mapping[col.id]
    ensures r.Ok? && col.id !in mapping ==> r.value == col
  {
    if col.id in mapping then Ok(mapping[col.id])
    else if mustExist then Err(LookupFailure)
    else Ok(col)
  }

  function RemapItems(items: seq<OrderExpr>, mapping: map<ColId, ColRef>, mustExist: bool): (r: Result<seq<OrderExpr>>)
    ensures r.Ok? <==> forall i :: 0 <= i < |items| ==> RemapCol(items[i].col, mapping, mustExist).Ok?
    ensures r.Ok? ==> |r.value| == |items|
    ensures r.Ok? ==> forall i :: 0 <= i < |items| ==>
              r.value[i] == items[i].(col := RemapCol(items[i].col, mapping, mustExist).value)
  {
    if |items| == 0 then Ok([])
    else
      match RemapCol(items[0].col, mapping, mustExist)
      case Err(e) => Err(e)
      case Ok(c) =>
        match RemapItems(items[1..], mapping, mustExist)
        case Err(e) => Err(e)
        case Ok(rest) => Ok([items[0].(col := c)] + rest)
  }

  /** COrderSpec::PosCopyWithRemappedColumns: a copy of the order spec in which every
      column goes through the mapping; sort operators and null placement are kept. */
  function PosRemap(pos: OrderSpec, mapping: map<ColId, ColRef>, mustExist: bool): (r: Result<OrderSpec>)
    ensures r.Err? <==> mustExist && exists id :: id in PosUsed(pos) && id !in mapping
    ensures r.Ok? ==> |r.value.items| == |pos.items|
    ensures r.Ok? ==> forall i :: 0 <= i < |pos.items| ==>
              r.value.items[i].sortOp == pos.items[i].sortOp &&
              r.value.items[i].nulls == pos.items[i].nulls &&
              r.value.items[i].col == RemapCol(pos.items[i].col, mapping, mustExist).value
  {
    var items := RemapItems(pos.items, mapping, mustExist);
    if items.Err? then
      assert exists i :: 0 <= i < |pos.items| && RemapCol(pos.items[i].col, mapping, mustExist).Err?;
      Err(items.error)
    else Ok(OrderSpec(items.value))
  }

  /** The columns a remapped order spec uses are the images of the original ones. */
  lemma RemapUsed(pos: OrderSpec, mapping: map<ColId, ColRef>)
    requires PosRemap(pos, mapping, false).Ok?
    ensures PosUsed(PosRemap(pos, mapping, false).value) ==
            set id | id in PosUsed(pos) :: if id in mapping then mapping[id].id else id
  {
    var r := PosRemap(pos, mapping, false).value;
    var image := set id | id in PosUsed(pos) :: if id in mapping then mapping[id].id else id;
    forall x | x in PosUsed(r) ensures x in image {
      var i :| 0 <= i < |r.items| && r.items[i].col.id == x;
      assert pos.items[i].col.id in PosUsed(pos);
    }
    forall x | x in image ensures x in PosUsed(r) {
      var id :| id in PosUsed(pos) && x == (if id in mapping then mapping[id].id else id);
      var i :| 0 <= i < |pos.items| && pos.items[i].col.id == id;
      assert r.items[i].col.id == x;
    }
  }

  /** Remapping through a mapping that sends every used column to itself is the identity. */
  lemma RemapIdentity(pos: OrderSpec, mapping: map<ColId, ColRef>, mustExist: bool)
    requires forall i :: 0 <= i < |pos.items| ==>
               pos.items[i].col.id in mapping && mapping[pos.items[i].col.id] == pos.items[i].col
    ensures PosRemap(pos, mapping, mustExist) == Ok(pos)
  {
    var r := PosRemap(pos, mapping, mustExist);
    assert r.Ok?;
    assert r.value.items == pos.items;
  }
}
