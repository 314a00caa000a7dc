/** Column access and row selection on data frames. */
module Frames {
  import opened Values

  /** Every row has one cell per column and one index label. */
  predicate WellFormed(f: Frame)
  {
    |f.index| == |f.rows| && forall i :: 0 <= i < |f.rows| ==> |f.rows[i]| == |f.columns|
  }

  /** Position of the first column labelled `name`, as `df[name]` finds it. */
  function ColumnPos(columns: seq<string>, name: string): (r: Option<nat>)
    ensures r.Some? ==> r.value < |columns| && columns[r.value] == name && name !in columns[..r.value]
    ensures r.None? ==> name !in columns
  {
    if |columns| == 0 then None
    else if columns[0] == name then Some(0)
    else
      match ColumnPos(columns[1..], name)
      case None => None
      case Some(k) =>
        assert columns[..k + 1] == [columns[0]] + columns[1..][..k];
        Some(k + 1)
  }

  /** The cells of column `name`, top to bottom (`df[name]`); a missing
      label raises KeyError. */
  function Column(f: Frame, name: string): (r: Result<seq<Cell>, Error>)
    requires WellFormed(f)
    ensures r.Err? <==> name !in f.columns
    ensures r.Err? ==> r.error == KeyError
    ensures r.Ok? ==> |r.value| == |f.rows|
    ensures r.Ok? ==> forall i :: 0 <= i < |r.value| ==> r.value[i] == f.rows[i][ColumnPos(f.columns, name).value]
  {
    match ColumnPos(f.columns, name)
    case None => Err(KeyError)
    case Some(k) => Ok(seq(|f.rows|, i requires 0 <= i < |f.rows| => f.rows[i][k]))
  }

  /** `df.iloc[[i]]`: the one-row frame holding row `i` under its own index label. */
  function ILocRow(f: Frame, i: nat): (r: Frame)
    requires WellFormed(f) && i < |f.rows|
    ensures WellFormed(r) && |r.rows| == 1 && r.columns == f.columns
    ensures r.rows[0] == f.rows[i] && r.index[0] == f.index[i]
  {
    Frame(f.columns, [f.index[i]], [f.rows[i]])
  }

  /** The default `RangeIndex` of a frame built from an array: 0, 1, ... */
  function RangeIndex(n: nat): (index: seq<Cell>)
    ensures |index| == n && forall i :: 0 <= i < n ==> index[i] == Int(i)
  {
    seq(n, i requires 0 <= i < n => Int(i))
  }
}
