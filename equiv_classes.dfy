/** Equivalence classes of columns (CColRefSetArray): sets of columns known to hold equal
    values, and the merge of two such lists (CUtils::PdrgpcrsMergeEquivClasses), which
    unions every pair of classes that share a column. */
module EquivClasses {
  import opened Base

  /** All columns mentioned by a list of classes. */
  function Flatten(s: seq<ColSet>): (r: ColSet)
  {
    set p, x | p in s && x in p :: x
  }

  /** No column is in two different classes. */
  predicate Disjoint(s: seq<ColSet>)
  {
    forall p, q :: p in s && q in s && p != q ==> p * q == {}
  }

  /** Every class of `a` lies within some class of `b`: `b` keeps every equality `a` states. */
  predicate Within(a: seq<ColSet>, b: seq<ColSet>)
  {
    forall p :: p in a ==> exists q :: q in b && p <= q
  }

  lemma WithinTransitive(a: seq<ColSet>, b: seq<ColSet>, c: seq<ColSet>)
    requires Within(a, b) && Within(b, c)
    ensures Within(a, c)
  {
    forall p | p in a ensures exists r :: r in c && p <= r {
      var q :| q in b && p <= q;
      var r :| r in c && q <= r;
    }
  }

  /** The columns of all classes of `parts` that share a column with `c`. */
  function Touching(parts: seq<ColSet>, c: ColSet): (r: ColSet)
  {
    set p, x | p in parts && p * c != {} && x in p :: x
  }

  /** The classes of `parts` that share no column with `c`, in their order. */
  function Untouched(parts: seq<ColSet>, c: ColSet): (r: seq<ColSet>)
    ensures forall p :: p in r <==> p in parts && p * c == {}
  {
    if |parts| == 0 then []
    else (if parts[0] * c == {} then [parts[0]] else []) + Untouched(parts[1..], c)
  }

  /** Adds one class: it absorbs every class it shares a column with. */
  function AddClass(parts: seq<ColSet>, c: ColSet): (r: seq<ColSet>)
    ensures Flatten(r) == Flatten(parts) + c
    ensures Within(parts, r)
    ensures Within([c], r)
    ensures Disjoint(parts) ==> Disjoint(r)
  {
    var m := c + Touching(parts, c);
    var r := [m] + Untouched(parts, c);
    assert Within(parts, r) by {
      forall p | p in parts ensures exists q :: q in r && p <= q {
        if p * c == {} {
          assert p in r;
        } else {
          assert p <= m;
        }
      }
    }
    assert Within([c], r) by {
      assert m in r;
    }
    assert Flatten(r) == Flatten(parts) + c by {
      forall x | x in Flatten(parts) ensures x in Flatten(r) {
        var p :| p in parts && x in p;
        if p * c == {} {
          assert p in r;
        } else {
          assert x in m;
        }
      }
      forall x | x in Flatten(r) ensures x in Flatten(parts) + c {
        var p :| p in r && x in p;
        if p == m {
        } else {
          assert p in parts;
        }
      }
    }
    assert Disjoint(parts) ==> Disjoint(r) by {
      if Disjoint(parts) {
        forall p, q | p in r && q in r && p != q ensures p * q == {} {
          if p != m && q != m {
          } else if p == m {
            DisjointFromAbsorbed(parts, c, q);
          } else {
            DisjointFromAbsorbed(parts, c, p);
          }
        }
      }
    }
    r
  }

  lemma DisjointFromAbsorbed(parts: seq<ColSet>, c: ColSet, u: ColSet)
    requires Disjoint(parts)
    requires u in parts && u * c == {}
    ensures u * (c + Touching(parts, c)) == {}
  {
    forall x | x in u ensures x !in Touching(parts, c) {
      forall p | p in parts && p * c != {} ensures x !in p {
        assert p != u;
        assert p * u == {};
        assert x !in p * u;
      }
    }
  }

  /** Stand-in for CUtils::PdrgpcrsMergeEquivClasses: adds the classes of `b` to `a` one
      by one. The result mentions exactly the columns of both inputs, keeps every
      equality of both, and is a partition when `a` is one. */
  function MergeEquivClasses(a: seq<ColSet>, b: seq<ColSet>): (r: seq<ColSet>)
    ensures Flatten(r) == Flatten(a) + Flatten(b)
    ensures Within(a, r) && Within(b, r)
    ensures Disjoint(a) ==> Disjoint(r)
    decreases |b|
  {
    if |b| == 0 then a
    else
      var a' := AddClass(a, b[0]);
      var r := MergeEquivClasses(a', b[1..]);
      assert Flatten(b) == b[0] + Flatten(b[1..]) by {
        forall x | x in Flatten(b) ensures x in b[0] + Flatten(b[1..]) {
          var p :| p in b && x in p;
          if p != b[0] {
            assert p in b[1..];
          }
        }
        assert b[0] in b;
      }
      WithinTransitive(a, a', r);
      WithinTransitive([b[0]], a', r);
      assert Within(b, r) by {
        forall p | p in b ensures exists q :: q in r && p <= q {
          if p == b[0] {
            assert p in [b[0]];
          } else {
            assert p in b[1..];
          }
        }
      }
      r
  }

  /** A class holds of a row when all its columns are present and carry one value. */
  predicate ClassHolds(p: ColSet, row: Row)
  {
    forall x, y :: x in p && y in p ==> x in row && y in row && row[x] == row[y]
  }

  predicate ClassesHold(s: seq<ColSet>, row: Row)
  {
    forall p :: p in s ==> ClassHolds(p, row)
  }

  /** Every column the new class absorbs carries the value of a column `z` of the class. */
  lemma AbsorbedAgree(parts: seq<ColSet>, c: ColSet, row: Row, z: ColId)
    requires ClassesHold(parts, row) && ClassHolds(c, row) && z in c
    ensures forall x :: x in c + Touching(parts, c) ==> x in row && row[x] == row[z]
  {
    forall x | x in c + Touching(parts, c) ensures x in row && row[x] == row[z] {
      if x !in c {
        var p :| p in parts && p * c != {} && x in p;
        var w :| w in p * c;
        assert ClassHolds(p, row);
      }
    }
  }

  lemma AddClassHolds(parts: seq<ColSet>, c: ColSet, row: Row)
    requires ClassesHold(parts, row) && ClassHolds(c, row)
    ensures ClassesHold(AddClass(parts, c), row)
  {
    var m := c + Touching(parts, c);
    if c != {} {
      var z :| z in c;
      AbsorbedAgree(parts, c, row, z);
    } else {
      assert Touching(parts, c) == {};
    }
    assert ClassHolds(m, row);
  }

  /** Merging classes that hold of a row gives classes that hold of it. */
  lemma {:induction false} MergeHolds(a: seq<ColSet>, b: seq<ColSet>, row: Row)
    requires ClassesHold(a, row) && ClassesHold(b, row)
    ensures ClassesHold(MergeEquivClasses(a, b), row)
    decreases |b|
  {
    if |b| > 0 {
      assert b[0] in b;
      AddClassHolds(a, b[0], row);
      assert ClassesHold(b[1..], row) by {
        forall p | p in b[1..] ensures ClassHolds(p, row) {
          assert p in b;
        }
      }
      MergeHolds(AddClass(a, b[0]), b[1..], row);
    }
  }

  /** Classes that hold of a row keep holding when the row gets more columns. */
  lemma ClassesHoldOnExtension(s: seq<ColSet>, row: Row, row': Row)
    requires ClassesHold(s, row)
    requires forall k :: k in row ==> k in row' && row'[k] == row[k]
    ensures ClassesHold(s, row')
  {
  }
}
