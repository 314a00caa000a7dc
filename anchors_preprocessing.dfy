/** The table bookkeeping of `load_csv_dataset` in
    xaibenchmark/customAnchorsPreprocessing.py (the Anchors library's
    loader, copied): the target index, the column transformations written
    into the caller's array, the restriction to the used features or the
    removal of the target, the categorical guess, the label encoding, the
    discretization, and the last row the function returns. */
module AnchorsPreprocessing {
  import opened Values
  import opened Utils
  import opened Coding
  import SpLime

  /** A 2-D numpy array, row by row. */
  type Grid = seq<seq<Cell>>

  /** Python's reading of a position into `n` entries: negative positions
      count from the end, others must be below `n`. */
  function Wrap(i: int, n: nat): (r: Result<nat, Error>)
    ensures r.Ok? <==> -(n as int) <= i < n
    ensures r.Err? ==> r.error == IndexError
    ensures r.Ok? && i >= 0 ==> r.value == i
    ensures r.Ok? && i < 0 ==> r.value == n + i
  {
    if 0 <= i < n then Ok(i)
    else if -(n as int) <= i < 0 then Ok(n + i)
    else Err(IndexError)
  }

  /** `if target_idx < 0: target_idx = data.shape[1] + target_idx`: a
      negative target in range becomes the column it refers to. */
  function TargetIndex(targetIdx: int, width: nat): (t: int)
    ensures -(width as int) <= targetIdx < width ==> 0 <= t < width && Wrap(targetIdx, width) == Ok(t)
    ensures targetIdx >= 0 ==> t == targetIdx
    ensures targetIdx < 0 ==> t == width + targetIdx
  {
    if targetIdx < 0 then width + targetIdx else targetIdx
  }

  /** The cells of a 2-D array. */
  function Cells(a: array2<Cell>): (g: Grid)
    reads a
    ensures |g| == a.Length0 && Rectangular(g, a.Length1)
    ensures forall i, q :: 0 <= i < a.Length0 && 0 <= q < a.Length1 ==> g[i][q] == a[i, q]
  {
    seq(a.Length0, i requires 0 <= i < a.Length0 reads a =>
      seq(a.Length1, q requires 0 <= q < a.Length1 reads a => a[i, q]))
  }

  /** Two tables of one shape with the same cells are equal. */
  lemma GridEq(g: Grid, h: Grid, width: nat)
    requires |g| == |h| && Rectangular(g, width) && Rectangular(h, width)
    requires forall i, q :: 0 <= i < |g| && 0 <= q < width ==> g[i][q] == h[i][q]
    ensures g == h
  {
    forall i | 0 <= i < |g|
      ensures g[i] == h[i]
    {
    }
  }

  /** `data[:, p]`. */
  function ColumnAt(rows: Grid, width: nat, p: nat): (col: seq<Cell>)
    requires Rectangular(rows, width) && p < width
    ensures |col| == |rows| && forall i :: 0 <= i < |rows| ==> col[i] == rows[i][p]
  {
    seq(|rows|, i requires 0 <= i < |rows| => rows[i][p])
  }

  /** `data[:, p] = col`: numpy broadcasts a single cell to every row and
      refuses (ValueError) a column of any other length than the rows'. */
  function Assigned(rows: Grid, width: nat, p: nat, col: seq<Cell>): (r: Result<Grid, Error>)
    requires Rectangular(rows, width) && p < width
    ensures r.Ok? <==> |col| == |rows| || |col| == 1
    ensures r.Err? ==> r.error == ValueError
    ensures r.Ok? ==> |r.value| == |rows| && Rectangular(r.value, width)
    ensures r.Ok? ==> forall i, q :: 0 <= i < |rows| && 0 <= q < width ==>
              r.value[i][q] == if q != p then rows[i][q] else if |col| == |rows| then col[i] else col[0]
  {
    if |col| != |rows| && |col| != 1 then Err(ValueError)
    else Ok(seq(|rows|, i requires 0 <= i < |rows| => rows[i][p := if |col| == |rows| then col[i] else col[0]]))
  }

  /** `data[:, p] = col` on the view `data[start:]` of a 2-D array: the rows
      above the view keep their cells, and a refused column changes
      nothing. */
  method AssignColumn(a: array2<Cell>, start: nat, p: nat, col: seq<Cell>) returns (err: Option<Error>)
    requires start <= a.Length0 && p < a.Length1
    modifies a
    ensures var r := Assigned(old(Cells(a))[start..], a.Length1, p, col);
            (err.None? <==> r.Ok?) && (err.Some? ==> err.value == r.error)
            && Cells(a) == old(Cells(a))[..start] + (if r.Ok? then r.value else old(Cells(a))[start..])
  {
    ghost var before := Cells(a);
    var n := a.Length0 - start;
    if |col| != n && |col| != 1 {
      return Some(ValueError);
    }
    for i := 0 to n
      invariant forall k, q :: 0 <= k < a.Length0 && 0 <= q < a.Length1 ==>
                  a[k, q] == if q == p && start <= k < start + i then (if |col| == n then col[k - start] else col[0]) else before[k][q]
    {
      a[start + i, p] := if |col| == n then col[i] else col[0];
    }
    err := None;
    var r := Assigned(before[start..], a.Length1, p, col);
    GridEq(Cells(a), before[..start] + r.value, a.Length1);
  }

  /** A column transformation: a column index and the function applied to
      that column. */
  type Transform = (int, seq<Cell> -> seq<Cell>)

  /** One transformation: `data[:, feature] = fun(data[:, feature])`. */
  function Step(rows: Grid, width: nat, f: Transform): (r: Result<Grid, Error>)
    requires Rectangular(rows, width)
    ensures r.Ok? ==> |r.value| == |rows| && Rectangular(r.value, width)
  {
    match Wrap(f.0, width)
    case Err(e) => Err(e)
    case Ok(p) => Assigned(rows, width, p, f.1(ColumnAt(rows, width, p)))
  }

  /** The transformations applied in order; the first that raises ends the
      loop. */
  function Transformed(rows: Grid, width: nat, fs: seq<Transform>): (r: Result<Grid, Error>)
    requires Rectangular(rows, width)
    ensures r.Ok? ==> |r.value| == |rows| && Rectangular(r.value, width)
    decreases |fs|
  {
    if fs == [] then Ok(rows)
    else
      match Transformed(rows, width, fs[..|fs| - 1])
      case Err(e) => Err(e)
      case Ok(cur) => Step(cur, width, fs[|fs| - 1])
  }

  /** What the rows hold once the loop has stopped: every transformation
      before the first refused one has been written. */
  function Applied(rows: Grid, width: nat, fs: seq<Transform>): (g: Grid)
    requires Rectangular(rows, width)
    ensures |g| == |rows| && Rectangular(g, width)
    ensures Transformed(rows, width, fs).Ok? ==> g == Transformed(rows, width, fs).value
    decreases |fs|
  {
    if fs == [] then rows
    else
      var init := fs[..|fs| - 1];
      match Transformed(rows, width, init)
      case Err(_) => Applied(rows, width, init)
      case Ok(cur) =>
        match Step(cur, width, fs[|fs| - 1])
        case Err(_) => cur
        case Ok(next) => next
  }

  /** The first transformation that raises leaves every transformation
      after it undone. */
  lemma {:induction false} AppliedStops(rows: Grid, width: nat, fs: seq<Transform>, k: nat)
    requires Rectangular(rows, width) && k <= |fs| && Transformed(rows, width, fs[..k]).Err?
    ensures Applied(rows, width, fs) == Applied(rows, width, fs[..k])
    decreases |fs| - k
  {
    if k < |fs| {
      var init := fs[..|fs| - 1];
      assert init[..k] == fs[..k];
      TransformedErrs(rows, width, init, k);
      AppliedStops(rows, width, init, k);
    } else {
      assert fs[..k] == fs;
    }
  }

  /** Once a transformation raises, so do all longer runs. */
  lemma {:induction false} TransformedErrs(rows: Grid, width: nat, fs: seq<Transform>, k: nat)
    requires Rectangular(rows, width) && k <= |fs| && Transformed(rows, width, fs[..k]).Err?
    ensures Transformed(rows, width, fs) == Transformed(rows, width, fs[..k])
    decreases |fs| - k
  {
    if k < |fs| {
      var init := fs[..|fs| - 1];
      assert init[..k] == fs[..k];
      TransformedErrs(rows, width, init, k);
    } else {
      assert fs[..k] == fs;
    }
  }

  /** Where the loop stands after `k` transformations that all succeeded:
      the next one either extends the run or stops the loop with the rows
      as they are. */
  lemma TransformedNext(rows: Grid, width: nat, fs: seq<Transform>, k: nat)
    requires Rectangular(rows, width) && k < |fs| && Transformed(rows, width, fs[..k]).Ok?
    ensures var cur := Transformed(rows, width, fs[..k]).value;
            Transformed(rows, width, fs[..k + 1]) == Step(cur, width, fs[k])
            && (Step(cur, width, fs[k]).Err? ==> Transformed(rows, width, fs) == Step(cur, width, fs[k]) && Applied(rows, width, fs) == cur)
  {
    assert fs[..k + 1][..k] == fs[..k];
    var cur := Transformed(rows, width, fs[..k]).value;
    if Step(cur, width, fs[k]).Err? {
      AppliedStops(rows, width, fs, k + 1);
      TransformedErrs(rows, width, fs, k + 1);
    }
  }

  /** One transformation written into the view `data[start:]`. */
  method StepInPlace(a: array2<Cell>, start: nat, f: Transform) returns (err: Option<Error>)
    requires start <= a.Length0
    modifies a
    ensures var r := Step(old(Cells(a))[start..], a.Length1, f);
            (err.None? <==> r.Ok?) && (err.Some? ==> err.value == r.error)
            && Cells(a) == old(Cells(a))[..start] + (if r.Ok? then r.value else old(Cells(a))[start..])
  {
    ghost var cur := Cells(a)[start..];
    var (feature, fun) := f;
    var p := Wrap(feature, a.Length1);
    if p.Err? {
      assert Cells(a) == Cells(a)[..start] + cur;
      return Some(p.error);
    }
    var col := seq(a.Length0 - start, i requires 0 <= i < a.Length0 - start reads a => a[start + i, p.value]);
    assert col == ColumnAt(cur, a.Length1, p.value);
    err := AssignColumn(a, start, p.value, fun(col));
  }

  /** `for feature, fun in feature_transformations.items(): data[:, feature]
      = fun(data[:, feature])` on the view `data[start:]`, written into the
      caller's array: on success the view holds the transformed rows; when
      a transformation raises, the ones before it stay written. */
  method TransformInPlace(a: array2<Cell>, start: nat, fs: seq<Transform>) returns (err: Option<Error>)
    requires start <= a.Length0
    modifies a
    ensures var r := Transformed(old(Cells(a))[start..], a.Length1, fs);
            (err.None? <==> r.Ok?) && (err.Some? ==> err.value == r.error)
    ensures Cells(a) == old(Cells(a))[..start] + Applied(old(Cells(a))[start..], a.Length1, fs)
  {
    ghost var before := Cells(a);
    ghost var rows := before[start..];
    err := None;
    for k := 0 to |fs|
      invariant err.None? && Transformed(rows, a.Length1, fs[..k]).Ok?
      invariant Cells(a) == before[..start] + Transformed(rows, a.Length1, fs[..k]).value
    {
      ghost var cur := Transformed(rows, a.Length1, fs[..k]).value;
      assert Cells(a)[..start] == before[..start] && Cells(a)[start..] == cur;
      TransformedNext(rows, a.Length1, fs, k);
      err := StepInPlace(a, start, fs[k]);
      if err.Some? {
        return;
      }
    }
    assert fs[..|fs|] == fs;
  }

  /** The table as the loader reshapes it: its rows, its width, the feature
      names and the categorical features, if known. */
  datatype Stage = Stage(rows: Grid, width: nat, names: seq<Cell>, cats: Option<seq<int>>)

  /** The columns `data[:, features_to_use]` reads, in the listed order,
      each index read the Python way. */
  function UsedColumns(ftu: seq<int>, width: nat): (r: Result<seq<nat>, Error>)
    ensures r.Ok? <==> forall j :: 0 <= j < |ftu| ==> Wrap(ftu[j], width).Ok?
    ensures r.Err? ==> r.error == IndexError
    ensures r.Ok? ==> |r.value| == |ftu| && forall j :: 0 <= j < |ftu| ==> Wrap(ftu[j], width) == Ok(r.value[j])
  {
    if forall j :: 0 <= j < |ftu| ==> Wrap(ftu[j], width).Ok? then
      Ok(seq(|ftu|, j requires 0 <= j < |ftu| => Wrap(ftu[j], width).value))
    else Err(IndexError)
  }

  /** The columns at positions `ps`, in that order. */
  function Columns(rows: Grid, width: nat, ps: seq<nat>): (r: Grid)
    requires Rectangular(rows, width) && forall j :: 0 <= j < |ps| ==> ps[j] < width
    ensures |r| == |rows| && Rectangular(r, |ps|)
    ensures forall i, j :: 0 <= i < |rows| && 0 <= j < |ps| ==> r[i][j] == rows[i][ps[j]]
  {
    seq(|rows|, i requires 0 <= i < |rows| => Select(rows[i], ps))
  }

  /** `[x for i, x in enumerate(feature_names) if i in features_to_use]`:
      the names whose position is listed, in the names' own order (a
      negative entry of the list matches no position). */
  function NamesAt(names: seq<Cell>, ftu: seq<int>): (r: seq<Cell>)
    ensures |r| <= |names|
    decreases |names|
  {
    if names == [] then []
    else NamesAt(names[..|names| - 1], ftu) + (if |names| - 1 in ftu then [names[|names| - 1]] else [])
  }

  /** Only which positions below `|names|` are listed matters. */
  lemma {:induction false} NamesAtSame(names: seq<Cell>, ftu: seq<int>, other: seq<int>)
    requires forall i :: 0 <= i < |names| ==> (i in ftu <==> i in other)
    ensures NamesAt(names, ftu) == NamesAt(names, other)
    decreases |names|
  {
    if names != [] {
      var n := |names| - 1;
      assert n in ftu <==> n in other;
      NamesAtSame(names[..n], ftu, other);
      assert NamesAt(names, ftu) == NamesAt(names[..n], ftu) + (if n in ftu then [names[n]] else []);
      assert NamesAt(names, other) == NamesAt(names[..n], other) + (if n in other then [names[n]] else []);
    }
  }

  /** An increasing list of positions up to `n` that lists `n` ends with
      it, and the rest lists the same positions below `n`. */
  lemma SortedLast(ftu: seq<int>, n: nat)
    requires forall j :: 0 <= j < |ftu| ==> 0 <= ftu[j] <= n
    requires forall a, b :: 0 <= a < b < |ftu| ==> ftu[a] < ftu[b]
    requires n in ftu
    ensures ftu[|ftu| - 1] == n
    ensures forall i :: 0 <= i < n ==> (i in ftu <==> i in ftu[..|ftu| - 1])
  {
    var last := |ftu| - 1;
    var j :| 0 <= j < |ftu| && ftu[j] == n;
    assert ftu[j] <= ftu[last];
    forall i | 0 <= i < n
      ensures i in ftu <==> i in ftu[..last]
    {
      if i in ftu {
        var k :| 0 <= k < |ftu| && ftu[k] == i;
        assert ftu[..last][k] == i;
      }
    }
  }

  /** When the used features are listed in increasing order and in range,
      the kept names are the names of the selected columns, column for
      column. */
  lemma {:induction false} NamesAtSorted(names: seq<Cell>, ftu: seq<int>)
    requires forall j :: 0 <= j < |ftu| ==> 0 <= ftu[j] < |names|
    requires forall a, b :: 0 <= a < b < |ftu| ==> ftu[a] < ftu[b]
    ensures |NamesAt(names, ftu)| == |ftu|
    ensures forall j :: 0 <= j < |ftu| ==> NamesAt(names, ftu)[j] == names[ftu[j]]
    decreases |names|
  {
    assert |ftu| == 0 || ftu[0] < |names|;
    if names != [] {
      var n := |names| - 1;
      var init := names[..n];
      if n in ftu {
        var last := |ftu| - 1;
        var front := ftu[..last];
        SortedLast(ftu, n);
        NamesAtSame(init, ftu, front);
        NamesAtSorted(init, front);
        assert NamesAt(names, ftu) == NamesAt(init, front) + [names[n]];
        forall j | 0 <= j < last
          ensures NamesAt(names, ftu)[j] == names[ftu[j]]
        {
          assert front[j] == ftu[j] && init[ftu[j]] == names[ftu[j]];
        }
      } else {
        NamesAtSorted(init, ftu);
        assert NamesAt(names, ftu) == NamesAt(init, ftu);
        forall j | 0 <= j < |ftu|
          ensures NamesAt(names, ftu)[j] == names[ftu[j]]
        {
          assert ftu[j] != n;
          assert init[ftu[j]] == names[ftu[j]];
        }
      }
    }
  }

  /** `features_to_use.index(x)`: the first position of `x`; ValueError
      when it is not listed. */
  function IndexOf(xs: seq<int>, x: int): (r: Result<nat, Error>)
    ensures r.Ok? <==> x in xs
    ensures r.Err? ==> r.error == ValueError
    ensures r.Ok? ==> r.value < |xs| && xs[r.value] == x && x !in xs[..r.value]
  {
    if xs == [] then Err(ValueError)
    else if xs[0] == x then Ok(0)
    else
      match IndexOf(xs[1..], x)
      case Err(e) => Err(e)
      case Ok(k) =>
        assert xs[..k + 1] == [xs[0]] + xs[1..][..k];
        Ok(k + 1)
  }

  /** `[features_to_use.index(x) for x in categorical_features]`. */
  function Repositioned(cats: seq<int>, ftu: seq<int>): (r: Result<seq<int>, Error>)
    ensures r.Ok? <==> forall j :: 0 <= j < |cats| ==> cats[j] in ftu
    ensures r.Err? ==> r.error == ValueError
    ensures r.Ok? ==> |r.value| == |cats|
    ensures r.Ok? ==> forall j :: 0 <= j < |cats| ==> 0 <= r.value[j] < |ftu| && ftu[r.value[j]] == cats[j]
  {
    if cats == [] then Ok([])
    else
      match IndexOf(ftu, cats[0])
      case Err(e) => Err(e)
      case Ok(k) =>
        match Repositioned(cats[1..], ftu)
        case Err(e) => Err(e)
        case Ok(rest) => Ok([k as int] + rest)
  }

  /** When the used features are listed once each, the renumbering is
      the only one under which every categorical feature is found again at
      its new position. */
  lemma RepositionedUnique(cats: seq<int>, ftu: seq<int>, ks: seq<int>)
    requires forall a, b :: 0 <= a < b < |ftu| ==> ftu[a] != ftu[b]
    requires |ks| == |cats| && forall j :: 0 <= j < |cats| ==> 0 <= ks[j] < |ftu| && ftu[ks[j]] == cats[j]
    ensures Repositioned(cats, ftu) == Ok(ks)
  {
    var r := Repositioned(cats, ftu);
    assert r.Ok? by {
      forall j | 0 <= j < |cats|
        ensures cats[j] in ftu
      {
        assert ftu[ks[j]] == cats[j];
      }
    }
    forall j | 0 <= j < |cats|
      ensures r.value[j] == ks[j]
    {
      assert ftu[r.value[j]] == ftu[ks[j]];
    }
    assert |r.value| == |ks|;
    assert r.value == ks;
  }

  /** The `features_to_use` branch: the listed columns (IndexError for one
      out of range), the names at the listed positions, and the given
      categorical features renumbered by their place in the list (ValueError
      for one that is not listed). */
  function UseFeatures(s: Stage, ftu: seq<int>): (r: Result<Stage, Error>)
    requires Rectangular(s.rows, s.width)
    ensures r.Ok? <==> UsedColumns(ftu, s.width).Ok? && (s.cats.Some? ==> Repositioned(s.cats.value, ftu).Ok?)
    ensures r.Err? ==> r.error == if UsedColumns(ftu, s.width).Err? then IndexError else ValueError
    ensures r.Ok? ==> var t := r.value;
              t.width == |ftu| && |t.rows| == |s.rows| && Rectangular(t.rows, t.width)
              && t.names == NamesAt(s.names, ftu) && t.cats.Some? == s.cats.Some?
    ensures r.Ok? ==> forall i, j :: 0 <= i < |s.rows| && 0 <= j < |ftu| ==>
              r.value.rows[i][j] == s.rows[i][UsedColumns(ftu, s.width).value[j]]
    ensures r.Ok? && s.cats.Some? ==> r.value.cats.value == Repositioned(s.cats.value, ftu).value
  {
    match UsedColumns(ftu, s.width)
    case Err(e) => Err(e)
    case Ok(ps) =>
      var rows := Columns(s.rows, s.width, ps);
      var names := NamesAt(s.names, ftu);
      match s.cats
      case None => Ok(Stage(rows, |ps|, names, None))
      case Some(cats) =>
        match Repositioned(cats, ftu)
        case Err(e) => Err(e)
        case Ok(moved) => Ok(Stage(rows, |ps|, names, Some(moved)))
  }

  /** A given categorical feature that is listed keeps naming the same
      column after the restriction. */
  lemma UseFeaturesKeepsCategorical(s: Stage, ftu: seq<int>, j: nat, i: nat)
    requires Rectangular(s.rows, s.width) && UseFeatures(s, ftu).Ok? && s.cats.Some?
    requires j < |s.cats.value| && i < |s.rows| && s.cats.value[j] >= 0
    ensures var t := UseFeatures(s, ftu).value;
            s.cats.value[j] < s.width && t.rows[i][t.cats.value[j]] == s.rows[i][s.cats.value[j]]
  {
    var t := UseFeatures(s, ftu).value;
    var k := t.cats.value[j];
    assert ftu[k] == s.cats.value[j];
    assert Wrap(ftu[k], s.width) == Ok(UsedColumns(ftu, s.width).value[k]);
  }

  /** `np.delete(data, p, 1)`: every row without its cell `p`. */
  function Deleted(rows: Grid, width: nat, p: nat): (r: Grid)
    requires Rectangular(rows, width) && p < width
    ensures |r| == |rows| && Rectangular(r, width - 1)
    ensures forall i, q :: 0 <= i < |rows| && 0 <= q < width - 1 ==> r[i][q] == rows[i][if q < p then q else q + 1]
  {
    seq(|rows|, i requires 0 <= i < |rows| => rows[i][..p] + rows[i][p + 1..])
  }

  /** `[x if x < target_idx else x - 1 for x in categorical_features]`. */
  function Shifted(cats: seq<int>, target: int): (r: seq<int>)
    ensures |r| == |cats| && forall j :: 0 <= j < |cats| ==> r[j] == if cats[j] < target then cats[j] else cats[j] - 1
  {
    seq(|cats|, j requires 0 <= j < |cats| => if cats[j] < target then cats[j] else cats[j] - 1)
  }

  /** The branch without `features_to_use`: the target column is deleted
      (IndexError when out of range), its name popped (IndexError when the
      names are too few), and a non-empty list of categorical features is
      shifted past the deleted column. */
  function DropTarget(s: Stage, target: int): (r: Result<Stage, Error>)
    requires Rectangular(s.rows, s.width)
    ensures r.Ok? <==> Wrap(target, s.width).Ok? && Wrap(target, |s.names|).Ok?
    ensures r.Err? ==> r.error == IndexError
    ensures r.Ok? ==> var t := r.value; var q := Wrap(target, |s.names|).value;
              t.width == s.width - 1 && |t.rows| == |s.rows| && Rectangular(t.rows, t.width)
              && t.names == s.names[..q] + s.names[q + 1..]
              && t.cats == if s.cats.Some? && s.cats.value != [] then Some(Shifted(s.cats.value, target)) else s.cats
    ensures r.Ok? ==> var p := Wrap(target, s.width).value;
              forall i, q :: 0 <= i < |s.rows| && 0 <= q < s.width - 1 ==>
                r.value.rows[i][q] == s.rows[i][if q < p then q else q + 1]
  {
    match Wrap(target, s.width)
    case Err(e) => Err(e)
    case Ok(p) =>
      match Wrap(target, |s.names|)
      case Err(e) => Err(e)
      case Ok(q) =>
        var cats := if s.cats.Some? && s.cats.value != [] then Some(Shifted(s.cats.value, target)) else s.cats;
        Ok(Stage(Deleted(s.rows, s.width, p), s.width - 1, s.names[..q] + s.names[q + 1..], cats))
  }

  /** With a target in range counted from the left, every other categorical
      feature keeps naming the same column after the deletion. */
  lemma DropTargetKeepsCategorical(s: Stage, target: int, j: nat, i: nat)
    requires Rectangular(s.rows, s.width) && DropTarget(s, target).Ok? && target >= 0
    requires s.cats.Some? && j < |s.cats.value| && i < |s.rows|
    requires 0 <= s.cats.value[j] < s.width && s.cats.value[j] != target
    ensures var t := DropTarget(s, target).value;
            0 <= t.cats.value[j] < t.width && t.rows[i][t.cats.value[j]] == s.rows[i][s.cats.value[j]]
  {
  }

  /** A column `np.unique` cannot sort: it holds strings and numbers. */
  predicate Mixed(col: seq<Cell>)
  {
    exists i, k :: 0 <= i < |col| && 0 <= k < |col| && col[i].Text? && !col[k].Text?
  }

  /** The number of values of a column that no earlier value equals. */
  function DistinctCount(col: seq<Cell>): (n: nat)
    ensures n <= |col|
    ensures col != [] ==> n >= 1
    decreases |col|
  {
    if col == [] then 0
    else
      var m := |col| - 1;
      DistinctCount(col[..m]) + if exists k :: 0 <= k < m && CellEq(col[k], col[m]) then 0 else 1
  }

  /** `len(np.unique(column))`: TypeError for a column that mixes strings
      and numbers, otherwise the number of different values. */
  function UniqueCount(col: seq<Cell>): (r: Result<nat, Error>)
    ensures r.Err? <==> Mixed(col)
    ensures r.Err? ==> r.error == TypeError
    ensures r.Ok? ==> r.value <= |col| && (col != [] ==> r.value >= 1)
  {
    if Mixed(col) then Err(TypeError) else Ok(DistinctCount(col))
  }

  /** Column `f` counts as categorical: fewer than 20 different values. */
  predicate Few(rows: Grid, width: nat, f: int)
    requires Rectangular(rows, width)
  {
    0 <= f < width && UniqueCount(ColumnAt(rows, width, f)).Ok? && UniqueCount(ColumnAt(rows, width, f)).value < 20
  }

  /** The guess from column `f` on, after `found`: the columns with fewer
      than 20 different values, in order; TypeError at the first mixed
      column. */
  function Guessed(rows: Grid, width: nat, f: nat, found: seq<int>): (r: Result<seq<int>, Error>)
    requires Rectangular(rows, width) && f <= width
    ensures r.Ok? <==> forall g :: f <= g < width ==> !Mixed(ColumnAt(rows, width, g))
    ensures r.Err? ==> r.error == TypeError
    ensures r.Ok? ==> forall x :: x in r.value <==> x in found || (f <= x && Few(rows, width, x))
    ensures r.Ok? ==> |found| <= |r.value| && r.value[..|found|] == found
    ensures r.Ok? ==> forall a :: |found| <= a < |r.value| ==> f <= r.value[a] < width
    ensures r.Ok? ==> forall a, b :: |found| <= a < b < |r.value| ==> r.value[a] < r.value[b]
    decreases width - f
  {
    if f == width then Ok(found)
    else
      match UniqueCount(ColumnAt(rows, width, f))
      case Err(e) => Err(e)
      case Ok(c) => Guessed(rows, width, f + 1, if c < 20 then found + [f] else found)
  }

  /** `for f in range(data.shape[1]): if len(np.unique(data[:, f])) < 20:
      categorical_features.append(f)`. */
  method GuessCategorical(rows: Grid, width: nat) returns (r: Result<seq<int>, Error>)
    requires Rectangular(rows, width)
    ensures r == Guessed(rows, width, 0, [])
  {
    var found := [];
    for f := 0 to width
      invariant Guessed(rows, width, f, found) == Guessed(rows, width, 0, [])
    {
      var c := UniqueCount(ColumnAt(rows, width, f));
      if c.Err? {
        return Err(c.error);
      }
      if c.value < 20 {
        found := found + [f];
      }
    }
    r := Ok(found);
  }

  /** The guess lists, in increasing order, exactly the columns with fewer
      than 20 different values; with fewer than 20 rows that is every
      column. */
  lemma GuessedColumns(rows: Grid, width: nat)
    requires Rectangular(rows, width) && Guessed(rows, width, 0, []).Ok?
    ensures var cats := Guessed(rows, width, 0, []).value;
            (forall x :: x in cats <==> Few(rows, width, x))
            && (forall a, b :: 0 <= a < b < |cats| ==> cats[a] < cats[b])
            && (|rows| < 20 ==> forall x :: 0 <= x < width ==> x in cats)
  {
    var cats := Guessed(rows, width, 0, []).value;
    forall x | 0 <= x < width && |rows| < 20
      ensures x in cats
    {
      assert !Mixed(ColumnAt(rows, width, x));
    }
  }

  /** The label encoder: the codes of a column and the classes it found. */
  type Encoder = seq<Cell> -> Result<(seq<Cell>, seq<Cell>), Error>

  /** Some listed feature reads column `q`. */
  predicate Touched(cats: seq<int>, width: nat, q: nat)
  {
    exists j :: 0 <= j < |cats| && Wrap(cats[j], width) == Ok(q)
  }

  /** The encoding loop from the listed features on: each column is
      replaced by its codes and its classes are recorded under the feature
      as listed; IndexError for a feature out of range, and the encoder's
      or the assignment's error. */
  function LabelEncoded(rows: Grid, width: nat, cats: seq<int>, encode: Encoder, names: map<int, seq<Cell>>)
    : (r: Result<(Grid, map<int, seq<Cell>>), Error>)
    requires Rectangular(rows, width)
    ensures r.Ok? ==> |r.value.0| == |rows| && Rectangular(r.value.0, width)
    ensures r.Ok? ==> r.value.1.Keys == names.Keys + set x | x in cats
    ensures r.Ok? ==> forall i, q :: 0 <= i < |rows| && 0 <= q < width && !Touched(cats, width, q) ==>
                        r.value.0[i][q] == rows[i][q]
    ensures (exists j :: 0 <= j < |cats| && Wrap(cats[j], width).Err?) ==> r.Err?
    decreases |cats|
  {
    if cats == [] then Ok((rows, names))
    else
      match Wrap(cats[0], width)
      case Err(e) => Err(e)
      case Ok(p) =>
        match encode(ColumnAt(rows, width, p))
        case Err(e) => Err(e)
        case Ok(fitted) =>
          match Assigned(rows, width, p, fitted.0)
          case Err(e) => Err(e)
          case Ok(next) =>
            EncodedTail(cats, width, p);
            LabelEncoded(next, width, cats[1..], encode, names[cats[0] := fitted.1])
  }

  /** What the features after the first one read, given that the first
      one reads column `p`. */
  lemma EncodedTail(cats: seq<int>, width: nat, p: nat)
    requires cats != [] && Wrap(cats[0], width) == Ok(p)
    ensures forall q: nat :: Touched(cats[1..], width, q) ==> Touched(cats, width, q)
    ensures Touched(cats, width, p)
    ensures (set x | x in cats) == {cats[0]} + set x | x in cats[1..]
    ensures (exists j :: 0 <= j < |cats| && Wrap(cats[j], width).Err?) ==>
              exists j :: 0 <= j < |cats[1..]| && Wrap(cats[1..][j], width).Err?
  {
    forall q: nat | Touched(cats[1..], width, q)
      ensures Touched(cats, width, q)
    {
      var j :| 0 <= j < |cats[1..]| && Wrap(cats[1..][j], width) == Ok(q);
      assert Wrap(cats[j + 1], width) == Ok(q);
    }
    assert Wrap(cats[0], width) == Ok(p);
    assert (set x | x in cats) == {cats[0]} + set x | x in cats[1..];
    if exists j :: 0 <= j < |cats| && Wrap(cats[j], width).Err? {
      var j :| 0 <= j < |cats| && Wrap(cats[j], width).Err?;
      assert cats[1..][j - 1] == cats[j];
    }
  }

  /** `for feature in categorical_features: le.fit(data[:, feature]);
      data[:, feature] = le.transform(data[:, feature]);
      categorical_names[feature] = le.classes_`, in place on the loader's own
      copy of the table. */
  method EncodeCategorical(a: array2<Cell>, cats: seq<int>, encode: Encoder) returns (r: Result<map<int, seq<Cell>>, Error>)
    modifies a
    ensures var e := LabelEncoded(old(Cells(a)), a.Length1, cats, encode, map[]);
            (r.Ok? <==> e.Ok?) && (r.Err? ==> r.error == e.error)
            && (r.Ok? ==> Cells(a) == e.value.0 && r.value == e.value.1)
  {
    ghost var goal := LabelEncoded(Cells(a), a.Length1, cats, encode, map[]);
    var names := map[];
    for k := 0 to |cats|
      invariant LabelEncoded(Cells(a), a.Length1, cats[k..], encode, names) == goal
    {
      assert cats[k..][1..] == cats[k + 1..];
      var p := Wrap(cats[k], a.Length1);
      if p.Err? {
        return Err(p.error);
      }
      var col := seq(a.Length0, i requires 0 <= i < a.Length0 reads a => a[i, p.value]);
      assert col == ColumnAt(Cells(a), a.Length1, p.value);
      var fitted := encode(col);
      if fitted.Err? {
        return Err(fitted.error);
      }
      ghost var prev := Cells(a);
      var err := AssignColumn(a, 0, p.value, fitted.value.0);
      if err.Some? {
        return Err(err.value);
      }
      assert prev[..0] + Assigned(prev[0..], a.Length1, p.value, fitted.value.0).value
          == Assigned(prev, a.Length1, p.value, fitted.value.0).value;
      names := names[cats[k] := fitted.value.1];
    }
    r := Ok(names);
  }

  /** `data.astype(float)`: every cell as a float; ValueError for a string
      that does not read as one. */
  function AsFloat(rows: Grid, width: nat, parse: string -> Option<real>): (r: Result<seq<seq<real>>, Error>)
    requires Rectangular(rows, width)
    ensures r.Ok? <==> forall i, q :: 0 <= i < |rows| && 0 <= q < width ==> SpLime.ToFloat(rows[i][q], parse).Ok?
    ensures r.Err? ==> r.error == ValueError
    ensures r.Ok? ==> |r.value| == |rows| && forall i :: 0 <= i < |rows| ==> |r.value[i]| == width
    ensures r.Ok? ==> forall i, q :: 0 <= i < |rows| && 0 <= q < width ==>
              SpLime.ToFloat(rows[i][q], parse) == Ok(Real(r.value[i][q]))
  {
    if forall i, q :: 0 <= i < |rows| && 0 <= q < width ==> SpLime.ToFloat(rows[i][q], parse).Ok? then
      Ok(seq(|rows|, i requires 0 <= i < |rows| =>
        seq(width, q requires 0 <= q < width => SpLime.ToFloat(rows[i][q], parse).value.r)))
    else Err(ValueError)
  }

  /** LIME's `QuartileDiscretizer(data, categorical_features, feature_names)`
      followed by its `discretize(data)`: the binned table and the bin
      names per feature. */
  type Discretizer = (seq<seq<real>>, seq<int>, seq<Cell>) -> Result<(seq<seq<real>>, map<int, seq<Cell>>), Error>

  /** `list(range(width))`. */
  function Range(width: nat): (r: seq<int>)
    ensures |r| == width && forall x :: x in r <==> 0 <= x < width
    ensures forall a :: 0 <= a < width ==> r[a] == a
  {
    if width == 0 then [] else Range(width - 1) + [width - 1]
  }

  /** `[x for x in range(width) if x not in categorical_features]`. */
  function Ordinal(width: nat, cats: seq<int>): (r: seq<int>)
    ensures forall x :: x in r <==> 0 <= x < width && x !in cats
    ensures forall a, b :: 0 <= a < b < |r| ==> r[a] < r[b]
    ensures forall a :: 0 <= a < |r| ==> 0 <= r[a] < width
    decreases width
  {
    if width == 0 then []
    else Ordinal(width - 1, cats) + (if width - 1 in cats then [] else [width - 1])
  }

  /** The `discretize` step: when asked, the discretizer bins the table,
      every column becomes categorical, the columns that were not are
      recorded as ordinal, and the bin names are added to the categorical
      names (replacing those of a feature already there); otherwise nothing
      changes and no feature is ordinal. */
  function Discretized(data: seq<seq<real>>, width: nat, cats: seq<int>, names: seq<Cell>, discretize: bool,
                       discretizer: Discretizer, catNames: map<int, seq<Cell>>)
    : (r: Result<(seq<seq<real>>, seq<int>, seq<int>, map<int, seq<Cell>>), Error>)
    ensures !discretize ==> r == Ok((data, cats, [], catNames))
    ensures discretize ==> (r.Ok? <==> discretizer(data, cats, names).Ok?)
    ensures discretize && r.Err? ==> r.error == discretizer(data, cats, names).error
    ensures discretize && r.Ok? ==> var bins := discretizer(data, cats, names).value;
              r.value.0 == bins.0
              && (forall x :: x in r.value.1 <==> 0 <= x < width)
              && (forall x :: x in r.value.2 <==> 0 <= x < width && x !in cats)
              && r.value.3.Keys == catNames.Keys + bins.1.Keys
              && (forall x :: x in bins.1 ==> r.value.3[x] == bins.1[x])
              && (forall x :: x in catNames && x !in bins.1 ==> r.value.3[x] == catNames[x])
  {
    if !discretize then Ok((data, cats, [], catNames))
    else
      match discretizer(data, cats, names)
      case Err(e) => Err(e)
      case Ok(bins) => Ok((bins.0, Range(width), Ordinal(width, cats), catNames + bins.1))
  }

  /** The fields of the `ret` bunch the loader fills, and `row`, the last
      row of the final table, which is what it returns. */
  datatype Loaded = Loaded(row: seq<real>, labels: seq<Cell>, classNames: seq<Cell>, classTarget: Cell,
                           featureNames: seq<Cell>, categorical: seq<int>, ordinal: seq<int>,
                           categoricalNames: map<int, seq<Cell>>)

  /** The keyword arguments the loader reads. */
  datatype Options = Options(targetIdx: int, featureNames: Option<seq<Cell>>, categorical: Option<seq<int>>,
                             featuresToUse: Option<seq<int>>, transformations: seq<Transform>,
                             discretize: bool, skipFirst: bool)

  /** The library code the loader calls: sklearn's label encoder, Python's
      `float` on strings and LIME's quartile discretizer. */
  datatype Library = Library(encode: Encoder, parse: string -> Option<real>, discretizer: Discretizer)

  /** From the restricted table on: the categorical features (given, or
      guessed), their encoding, the conversion to floats, the optional
      discretization and the last row, IndexError for a table without
      rows. */
  function Described(s: Stage, labels: seq<Cell>, classNames: seq<Cell>, classTarget: Cell, discretize: bool, lib: Library)
    : (r: Result<Loaded, Error>)
    requires Rectangular(s.rows, s.width)
    ensures r.Ok? ==> r.value.featureNames == s.names && r.value.labels == labels
                      && r.value.classNames == classNames && r.value.classTarget == classTarget
    ensures r.Ok? && s.cats.Some? && !discretize ==> r.value.categorical == s.cats.value && r.value.ordinal == []
    ensures r.Ok? && s.cats.None? && !discretize ==> forall x :: x in r.value.categorical <==> Few(s.rows, s.width, x)
    ensures r.Ok? && discretize ==> forall x :: x in r.value.categorical <==> 0 <= x < s.width
    ensures r.Ok? && discretize && s.cats.Some? ==>
              forall x :: x in r.value.ordinal <==> 0 <= x < s.width && x !in s.cats.value
    ensures r.Ok? && !discretize ==> |r.value.row| == s.width
  {
    match (if s.cats.Some? then Ok(s.cats.value) else Guessed(s.rows, s.width, 0, []))
    case Err(e) => Err(e)
    case Ok(cats) => Converted(s, cats, labels, classNames, classTarget, discretize, lib)
  }

  /** Once the categorical features are known: the encoding, the
      conversion to floats, the discretization and the last row. */
  function Converted(s: Stage, cats: seq<int>, labels: seq<Cell>, classNames: seq<Cell>, classTarget: Cell,
                     discretize: bool, lib: Library): (r: Result<Loaded, Error>)
    requires Rectangular(s.rows, s.width)
    ensures r.Ok? ==> r.value.featureNames == s.names && r.value.labels == labels
                      && r.value.classNames == classNames && r.value.classTarget == classTarget
    ensures r.Ok? && !discretize ==> r.value.categorical == cats && r.value.ordinal == [] && |r.value.row| == s.width
    ensures r.Ok? && discretize ==> forall x :: x in r.value.categorical <==> 0 <= x < s.width
    ensures r.Ok? && discretize ==> forall x :: x in r.value.ordinal <==> 0 <= x < s.width && x !in cats
  {
    match LabelEncoded(s.rows, s.width, cats, lib.encode, map[])
    case Err(e) => Err(e)
    case Ok(encoded) =>
      match AsFloat(encoded.0, s.width, lib.parse)
      case Err(e) => Err(e)
      case Ok(data) =>
        match Discretized(data, s.width, cats, s.names, discretize, lib.discretizer, encoded.1)
        case Err(e) => Err(e)
        case Ok(d) =>
          if |d.0| == 0 then Err(IndexError)
          else Ok(Loaded(d.0[|d.0| - 1], labels, classNames, classTarget, s.names, d.1, d.2, d.3))
  }

  /** From the transformed rows on: the labels are the encoded target
      column, the class target is the target's name, and then either the
      used features are kept or the target is dropped. */
  function LoadedFrom(rows: Grid, width: nat, names: seq<Cell>, o: Options, lib: Library): (r: Result<Loaded, Error>)
    requires Rectangular(rows, width)
    ensures r.Ok? ==> var t := TargetIndex(o.targetIdx, width);
              Wrap(t, width).Ok? && PyIndex(names, t) == Ok(r.value.classTarget)
              && lib.encode(ColumnAt(rows, width, Wrap(t, width).value)) == Ok((r.value.labels, r.value.classNames))
    ensures r.Ok? && o.featuresToUse.Some? ==> r.value.featureNames == NamesAt(names, o.featuresToUse.value)
    ensures r.Ok? && o.featuresToUse.None? ==> var q := Wrap(TargetIndex(o.targetIdx, width), |names|).value;
              r.value.featureNames == names[..q] + names[q + 1..]
    ensures r.Ok? && o.featuresToUse.Some? && o.discretize ==>
              forall x :: x in r.value.categorical <==> 0 <= x < |o.featuresToUse.value|
    ensures r.Ok? && o.featuresToUse.Some? && o.categorical.Some? && o.discretize ==>
              Repositioned(o.categorical.value, o.featuresToUse.value).Ok?
              && forall x :: x in r.value.ordinal <==>
                   0 <= x < |o.featuresToUse.value| && x !in Repositioned(o.categorical.value, o.featuresToUse.value).value
  {
    var t := TargetIndex(o.targetIdx, width);
    match Wrap(t, width)
    case Err(e) => Err(e)
    case Ok(p) =>
      match lib.encode(ColumnAt(rows, width, p))
      case Err(e) => Err(e)
      case Ok(fitted) =>
        match PyIndex(names, t)
        case Err(e) => Err(e)
        case Ok(classTarget) =>
          var s := Stage(rows, width, names, o.categorical);
          match (if o.featuresToUse.Some? then UseFeatures(s, o.featuresToUse.value) else DropTarget(s, t))
          case Err(e) => Err(e)
          case Ok(kept) => Described(kept, fitted.0, fitted.1, classTarget, o.discretize, lib)
  }

  /** Where the data rows start and the feature names: without names the
      first row holds them (IndexError for an empty table), and
      `skip_first` drops one more row when there is one. */
  function Header(grid: Grid, o: Options): (r: Result<(nat, seq<Cell>), Error>)
    ensures r.Ok? <==> o.featureNames.Some? || grid != []
    ensures r.Err? ==> r.error == IndexError
    ensures r.Ok? ==> r.value.0 <= |grid|
    ensures r.Ok? && o.featureNames.Some? ==> r.value.1 == o.featureNames.value
    ensures r.Ok? && o.featureNames.None? ==> r.value.1 == grid[0] && r.value.0 >= 1
  {
    if o.featureNames.None? && grid == [] then Err(IndexError)
    else
      var start := if o.featureNames.None? then 1 else 0;
      var names := if o.featureNames.None? then grid[0] else o.featureNames.value;
      Ok((if o.skipFirst && start < |grid| then start + 1 else start, names))
  }

  /** `load_csv_dataset(data, target_idx, ...)`: the loader's result, or the
      exception it raises. */
  function LoadedCsv(grid: Grid, width: nat, o: Options, lib: Library): (r: Result<Loaded, Error>)
    requires Rectangular(grid, width)
    ensures o.featureNames.None? && grid == [] ==> r == Err(IndexError)
    ensures r.Ok? ==> Header(grid, o).Ok? && Transformed(grid[Header(grid, o).value.0..], width, o.transformations).Ok?
  {
    match Header(grid, o)
    case Err(e) => Err(e)
    case Ok(h) =>
      match Transformed(grid[h.0..], width, o.transformations)
      case Err(e) => Err(e)
      case Ok(rows) => LoadedFrom(rows, width, h.1, o, lib)
  }

  /** The caller's array once the loader has returned or raised: the rows
      below the header hold every transformation that was applied. */
  function Written(grid: Grid, width: nat, o: Options): (g: Grid)
    requires Rectangular(grid, width)
    ensures |g| == |grid| && Rectangular(g, width)
    ensures Header(grid, o).Ok? ==> g[..Header(grid, o).value.0] == grid[..Header(grid, o).value.0]
  {
    match Header(grid, o)
    case Err(_) => grid
    case Ok(h) => grid[..h.0] + Applied(grid[h.0..], width, o.transformations)
  }

  /** The steps after the transformations, on the loader's own copies of
      the table. */
  method Process(rows: Grid, width: nat, names: seq<Cell>, o: Options, lib: Library) returns (r: Result<Loaded, Error>)
    requires Rectangular(rows, width)
    ensures r == LoadedFrom(rows, width, names, o, lib)
  {
    var t := TargetIndex(o.targetIdx, width);
    var p := Wrap(t, width);
    if p.Err? {
      return Err(p.error);
    }
    var fitted := lib.encode(ColumnAt(rows, width, p.value));
    if fitted.Err? {
      return Err(fitted.error);
    }
    var classTarget := PyIndex(names, t);
    if classTarget.Err? {
      return Err(classTarget.error);
    }
    var s := Stage(rows, width, names, o.categorical);
    var kept := if o.featuresToUse.Some? then UseFeatures(s, o.featuresToUse.value) else DropTarget(s, t);
    if kept.Err? {
      return Err(kept.error);
    }
    r := Describe(kept.value, fitted.value.0, fitted.value.1, classTarget.value, o.discretize, lib);
  }

  /** The steps after the restriction: the categorical guess, the encoding
      in place on a fresh copy, the conversion to floats, the
      discretization and the last row. */
  method Describe(s: Stage, labels: seq<Cell>, classNames: seq<Cell>, classTarget: Cell, discretize: bool, lib: Library)
    returns (r: Result<Loaded, Error>)
    requires Rectangular(s.rows, s.width)
    ensures r == Described(s, labels, classNames, classTarget, discretize, lib)
  {
    var cats: seq<int>;
    if s.cats.Some? {
      cats := s.cats.value;
    } else {
      var guessed := GuessCategorical(s.rows, s.width);
      if guessed.Err? {
        return Err(guessed.error);
      }
      cats := guessed.value;
    }
    r := Convert(s, cats, labels, classNames, classTarget, discretize, lib);
  }

  /** The steps after the categorical guess, on a fresh copy of the rows. */
  method Convert(s: Stage, cats: seq<int>, labels: seq<Cell>, classNames: seq<Cell>, classTarget: Cell,
                 discretize: bool, lib: Library) returns (r: Result<Loaded, Error>)
    requires Rectangular(s.rows, s.width)
    ensures r == Converted(s, cats, labels, classNames, classTarget, discretize, lib)
  {
    var encoded := EncodeCopy(s.rows, s.width, cats, lib.encode);
    if encoded.Err? {
      return Err(encoded.error);
    }
    var data := AsFloat(encoded.value.0, s.width, lib.parse);
    if data.Err? {
      return Err(data.error);
    }
    var d := Discretized(data.value, s.width, cats, s.names, discretize, lib.discretizer, encoded.value.1);
    if d.Err? {
      return Err(d.error);
    }
    var (table, categorical, ordinal, categoricalNames) := d.value;
    if |table| == 0 {
      return Err(IndexError);
    }
    r := Ok(Loaded(table[|table| - 1], labels, classNames, classTarget, s.names, categorical, ordinal, categoricalNames));
  }

  /** The label encoding on a fresh array holding a copy of the rows. */
  method EncodeCopy(rows: Grid, width: nat, cats: seq<int>, encode: Encoder)
    returns (r: Result<(Grid, map<int, seq<Cell>>), Error>)
    requires Rectangular(rows, width)
    ensures r == LabelEncoded(rows, width, cats, encode, map[])
  {
    var b := new Cell[|rows|, width]((i, q) requires 0 <= i < |rows| && 0 <= q < width => rows[i][q]);
    GridEq(Cells(b), rows, width);
    var catNames := EncodeCategorical(b, cats, encode);
    if catNames.Err? {
      return Err(catNames.error);
    }
    r := Ok((Cells(b), catNames.value));
  }

  /** The header lines: the feature names from the first row when none are
      given, and the row where the data starts. */
  method ReadHeader(data: array2<Cell>, o: Options) returns (r: Result<(nat, seq<Cell>), Error>)
    ensures r == Header(Cells(data), o)
  {
    var start := 0;
    var names: seq<Cell>;
    if o.featureNames.None? {
      if data.Length0 == 0 {
        return Err(IndexError);
      }
      names := seq(data.Length1, q requires 0 <= q < data.Length1 reads data => data[0, q]);
      assert names == Cells(data)[0];
      start := 1;
    } else {
      names := o.featureNames.value;
    }
    if o.skipFirst && start < data.Length0 {
      start := start + 1;
    }
    r := Ok((start, names));
  }

  /** `load_csv_dataset`: the transformations are written into the
      caller's array (a view of it below the header), every later step
      works on copies. */
  method LoadCsvDataset(data: array2<Cell>, o: Options, lib: Library) returns (r: Result<Loaded, Error>)
    modifies data
    ensures r == LoadedCsv(old(Cells(data)), data.Length1, o, lib)
    ensures Cells(data) == Written(old(Cells(data)), data.Length1, o)
  {
    ghost var grid := Cells(data);
    var h := ReadHeader(data, o);
    if h.Err? {
      return Err(h.error);
    }
    var (start, names) := h.value;
    var err := TransformInPlace(data, start, o.transformations);
    if err.Some? {
      return Err(err.value);
    }
    var rows := seq(data.Length0 - start, i requires 0 <= i < data.Length0 - start reads data =>
      seq(data.Length1, q requires 0 <= q < data.Length1 reads data => data[start + i, q]));
    assert rows == Cells(data)[start..];
    r := Process(rows, data.Length1, names, o, lib);
  }
}
