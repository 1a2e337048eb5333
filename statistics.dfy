/** Statistics objects, kept opaque: the operators only read their row estimate, pass
    them on unchanged, or hand them to a statistics processor. A statistics object is a
    value, so "the same object" is equality. */
module Stats {
  import opened Base

  /** A statistics object with its estimated row count. Derived objects record what they
      were derived from. */
  datatype Statistics =
    | BaseStats(id: nat, rows: real)
    | LimitStats(input: Statistics, rows: real)
    | ProjectStats(input: Statistics, constCols: map<ColId, Datum>, rows: real)

  /** How many derivation steps lie between a statistics object and base statistics. */
  function Depth(s: Statistics): (r: nat)
  {
    match s
    case BaseStats(_, _) => 0
    case LimitStats(input, _) => Depth(input) + 1
    case ProjectStats(input, _, _) => Depth(input) + 1
  }

  /** Stand-in for CLimitStatsProcessor::CalcLimitStats: statistics of the input cut down
      to `rowsMax` rows. */
  function CalcLimitStats(input: Statistics, rowsMax: real): (r: Statistics)
    ensures r.rows == rowsMax
    ensures r != input
  {
    var r := LimitStats(input, rowsMax);
    assert Depth(r) != Depth(input);
    r
  }

  /** Stand-in for CLogical::PstatsDeriveProject: statistics of a projection of the input
      in which the mapped columns are known constants; a projection keeps the row count. */
  function PstatsDeriveProject(input: Statistics, constCols: map<ColId, Datum>): (r: Statistics)
    ensures r.rows == input.rows
  {
    ProjectStats(input, constCols, input.rows)
  }
}
