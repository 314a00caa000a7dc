/** The category <-> index coding shared by the Anchors explainers
    (astrapia/explainers/anchors.py, xaibenchmark/explainers/anchors.py) and
    the SP-LIME samplers (astrapia/samplers/splime.py,
    xaibenchmark/samplers/splime.py): every categorical column of a numpy
    table is overwritten, column by column, with the position of each
    cell's `str()` among the stringified labels of its feature; decoding
    looks the positions up in the label list again. */
module Coding {
  import opened Values
  import opened Text
  import opened Frames
  import opened Utils

  type Categories = map<string, seq<Cell>>

  /** `[i for i, label in enumerate(names) if label in categorical.keys()]`
      (`categorical == true`), or its complement, the ordinal features. */
  function Positions(names: seq<string>, cats: Categories, categorical: bool): (ps: seq<nat>)
    ensures forall j :: 0 <= j < |ps| ==> ps[j] < |names| && (names[ps[j]] in cats <==> categorical)
    ensures forall a, b :: 0 <= a < b < |ps| ==> ps[a] < ps[b]
    ensures forall i {:trigger i in ps} :: 0 <= i < |names| && (names[i] in cats <==> categorical) ==> i in ps
  {
    if names == [] then []
    else
      var n := |names| - 1;
      var ps := Positions(names[..n], cats, categorical);
      assert forall j :: 0 <= j < |ps| ==> names[..n][ps[j]] == names[ps[j]];
      assert forall i :: 0 <= i < n ==> names[..n][i] == names[i];
      if (names[n] in cats) == categorical then ps + [n] else ps
  }

  /** The categorical and the ordinal positions partition the features. */
  lemma PositionsPartition(names: seq<string>, cats: Categories, i: nat)
    requires i < |names|
    ensures i in Positions(names, cats, true) <==> i !in Positions(names, cats, false)
  {
  }

  /** `[str(x) for x in labels]`. */
  function Strs(labels: seq<Cell>): (strs: seq<string>)
    ensures |strs| == |labels| && forall k :: 0 <= k < |labels| ==> strs[k] == Show(labels[k])
  {
    seq(|labels|, k requires 0 <= k < |labels| => Show(labels[k]))
  }

  /** `{s: idx for idx, s in enumerate(strs)}[key]`: a later duplicate
      overwrites an earlier one, so the last position wins. */
  function LastPos(strs: seq<string>, key: string): (r: Option<nat>)
    ensures r.Some? ==> r.value < |strs| && strs[r.value] == key && key !in strs[r.value + 1..]
    ensures r.None? ==> key !in strs
  {
    if strs == [] then None
    else if strs[|strs| - 1] == key then Some(|strs| - 1)
    else
      assert strs == strs[..|strs| - 1] + [strs[|strs| - 1]];
      LastPos(strs[..|strs| - 1], key)
  }

  /** `feature_map[str(x)]`: the code of a cell, KeyError for a value none of
      whose labels prints the same. */
  function Code(labels: seq<Cell>, c: Cell): (r: Result<Cell, Error>)
    ensures r.Err? <==> Show(c) !in Strs(labels)
    ensures r.Err? ==> r.error == KeyError
    ensures r.Ok? ==> r.value.Int? && 0 <= r.value.i < |labels| && Show(labels[r.value.i]) == Show(c)
  {
    match LastPos(Strs(labels), Show(c))
    case None => Err(KeyError)
    case Some(k) => Ok(Int(k))
  }

  /** With labels that print differently, a label codes to its own position. */
  lemma CodeOfLabel(labels: seq<Cell>, k: nat)
    requires Distinct(Strs(labels)) && k < |labels|
    ensures Code(labels, labels[k]) == Ok(Int(k))
  {
  }

  /** Every row of a numpy table has the table's width. */
  predicate Rectangular(rows: seq<seq<Cell>>, width: nat)
  {
    forall i :: 0 <= i < |rows| ==> |rows[i]| == width
  }

  /** `data[:, p] = np.vectorize(lambda x: feature_map[str(x)])(data[:, p])`:
      a column past the width raises IndexError; `np.vectorize` refuses an
      empty column (ValueError); an unknown value raises KeyError; otherwise
      column `p` holds the codes and nothing else changes. */
  function RecodedColumn(rows: seq<seq<Cell>>, width: nat, p: nat, labels: seq<Cell>): (r: Result<seq<seq<Cell>>, Error>)
    requires Rectangular(rows, width)
    ensures r.Ok? <==> p < width && rows != [] && forall i :: 0 <= i < |rows| ==> Code(labels, rows[i][p]).Ok?
    ensures r.Ok? ==> |r.value| == |rows| && Rectangular(r.value, width)
    ensures r.Ok? ==> forall i, q :: 0 <= i < |rows| && 0 <= q < width ==>
      r.value[i][q] == if q == p then Code(labels, rows[i][p]).value else rows[i][q]
  {
    if p >= width then Err(IndexError)
    else if rows == [] then Err(ValueError)
    else if exists i :: 0 <= i < |rows| && Code(labels, rows[i][p]).Err? then Err(KeyError)
    else Ok(seq(|rows|, i requires 0 <= i < |rows| => rows[i][p := Code(labels, rows[i][p]).value]))
  }

  /** The coded table after the categorical columns `ps` were recoded in
      order; the first column that fails decides the exception. */
  function CodedRows(rows: seq<seq<Cell>>, width: nat, names: seq<string>, cats: Categories, ps: seq<nat>)
    : (r: Result<seq<seq<Cell>>, Error>)
    requires Rectangular(rows, width)
    requires forall j :: 0 <= j < |ps| ==> ps[j] < |names| && names[ps[j]] in cats
    ensures r.Ok? ==> |r.value| == |rows| && Rectangular(r.value, width)
  {
    if ps == [] then Ok(rows)
    else
      match CodedRows(rows, width, names, cats, ps[..|ps| - 1])
      case Err(e) => Err(e)
      case Ok(coded) =>
        var p := ps[|ps| - 1];
        RecodedColumn(coded, width, p, cats[names[p]])
  }

  /** A failing prefix of the columns makes the whole coding fail the same
      way. */
  lemma {:induction false} CodedRowsFails(rows: seq<seq<Cell>>, width: nat, names: seq<string>, cats: Categories, ps: seq<nat>, j: nat)
    requires Rectangular(rows, width)
    requires forall k :: 0 <= k < |ps| ==> ps[k] < |names| && names[ps[k]] in cats
    requires j <= |ps| && CodedRows(rows, width, names, cats, ps[..j]).Err?
    ensures CodedRows(rows, width, names, cats, ps) == CodedRows(rows, width, names, cats, ps[..j])
  {
    if j == |ps| {
      assert ps[..j] == ps;
    } else {
      var init := ps[..|ps| - 1];
      assert init[..j] == ps[..j];
      CodedRowsFails(rows, width, names, cats, init, j);
    }
  }

  /** One more column of the coding, as the loop takes it. */
  lemma CodedRowsNext(rows: seq<seq<Cell>>, width: nat, names: seq<string>, cats: Categories, ps: seq<nat>, j: nat,
                      coded: seq<seq<Cell>>)
    requires Rectangular(rows, width)
    requires forall k :: 0 <= k < |ps| ==> ps[k] < |names| && names[ps[k]] in cats
    requires j < |ps| && CodedRows(rows, width, names, cats, ps[..j]) == Ok(coded)
    ensures Rectangular(coded, width)
    ensures CodedRows(rows, width, names, cats, ps[..j + 1]) == RecodedColumn(coded, width, ps[j], cats[names[ps[j]]])
  {
    assert ps[..j + 1][..j] == ps[..j];
  }

  /** The coding loop shared by `transform_dataset` (Anchors) and `sample`
      (SP-LIME): the categorical columns of `data.to_numpy()` are
      overwritten one after the other, in feature order. */
  method EncodeCategories(data: Frame, names: seq<string>, cats: Categories) returns (r: Result<seq<seq<Cell>>, Error>)
    requires WellFormed(data)
    ensures r == CodedRows(data.rows, |data.columns|, names, cats, Positions(names, cats, true))
  {
    var ps := Positions(names, cats, true);
    var width := |data.columns|;
    var rows := data.rows;
    for j := 0 to |ps|
      invariant CodedRows(data.rows, width, names, cats, ps[..j]) == Ok(rows)
    {
      CodedRowsNext(data.rows, width, names, cats, ps, j, rows);
      var coded := RecodedColumn(rows, width, ps[j], cats[names[ps[j]]]);
      if coded.Err? {
        CodedRowsFails(data.rows, width, names, cats, ps, j + 1);
        return Err(coded.error);
      }
      rows := coded.value;
    }
    assert ps[..|ps|] == ps;
    r := Ok(rows);
  }

  /** Cell `(i, q)` of `out` is the code of the cell of `rows` when `q` is
      one of the columns `cols`, and the cell itself otherwise. */
  ghost predicate CodedCell(rows: seq<seq<Cell>>, out: seq<seq<Cell>>, names: seq<string>, cats: Categories,
                            cols: seq<nat>, i: nat, q: nat)
    requires i < |rows| && i < |out| && q < |rows[i]| && q < |out[i]|
  {
    if q in cols then q < |names| && names[q] in cats && Code(cats[names[q]], rows[i][q]).Ok?
                      && out[i][q] == Code(cats[names[q]], rows[i][q]).value
    else out[i][q] == rows[i][q]
  }

  /** `out` is `rows` with exactly the columns in `cols` coded. */
  ghost predicate CodedFrom(rows: seq<seq<Cell>>, out: seq<seq<Cell>>, width: nat, names: seq<string>, cats: Categories, cols: seq<nat>)
  {
    Rectangular(rows, width) && |out| == |rows| && Rectangular(out, width)
    && forall i: nat, q: nat :: i < |rows| && q < width ==> CodedCell(rows, out, names, cats, cols, i, q)
  }

  /** Coding one more column extends the set of coded columns. */
  lemma RecodedStep(rows: seq<seq<Cell>>, coded: seq<seq<Cell>>, out: seq<seq<Cell>>, width: nat, names: seq<string>,
                    cats: Categories, cols: seq<nat>, p: nat)
    requires CodedFrom(rows, coded, width, names, cats, cols) && p !in cols
    requires p < width && p < |names| && names[p] in cats
    requires |out| == |rows| && Rectangular(out, width)
    requires forall i :: 0 <= i < |rows| ==> Code(cats[names[p]], coded[i][p]).Ok?
    requires forall i, q :: 0 <= i < |rows| && 0 <= q < width ==>
               out[i][q] == if q == p then Code(cats[names[p]], coded[i][p]).value else coded[i][q]
    ensures CodedFrom(rows, out, width, names, cats, cols + [p])
  {
    forall i: nat, q: nat | i < |rows| && q < width
      ensures CodedCell(rows, out, names, cats, cols + [p], i, q)
    {
      assert CodedCell(rows, coded, names, cats, cols, i, q);
    }
  }

  /** Coding the columns `ps` (in increasing order, inside the table)
      succeeds exactly when there is a row or no column to code and every
      cell of those columns is known; it then rewrites exactly the cells of
      those columns. */
  lemma {:induction false} CodedRowsCells(rows: seq<seq<Cell>>, width: nat, names: seq<string>, cats: Categories, ps: seq<nat>)
    requires Rectangular(rows, width)
    requires forall j :: 0 <= j < |ps| ==> ps[j] < |names| && names[ps[j]] in cats && ps[j] < width
    requires forall a, b :: 0 <= a < b < |ps| ==> ps[a] < ps[b]
    ensures CodedRows(rows, width, names, cats, ps).Ok? <==>
              (rows != [] || ps == [])
              && forall j, i :: 0 <= j < |ps| && 0 <= i < |rows| ==> Code(cats[names[ps[j]]], rows[i][ps[j]]).Ok?
    ensures CodedRows(rows, width, names, cats, ps).Ok? ==>
              CodedFrom(rows, CodedRows(rows, width, names, cats, ps).value, width, names, cats, ps)
  {
    if ps != [] {
      var init := ps[..|ps| - 1];
      var p := ps[|ps| - 1];
      CodedRowsCells(rows, width, names, cats, init);
      assert ps == init + [p];
      var labels := cats[names[p]];
      var prefix := CodedRows(rows, width, names, cats, init);
      if prefix.Ok? {
        var coded := prefix.value;
        assert p !in init by {
          forall k | 0 <= k < |init| ensures init[k] != p {
            assert init[k] == ps[k];
          }
        }
        forall i | 0 <= i < |rows| ensures coded[i][p] == rows[i][p] {
          assert CodedCell(rows, coded, names, cats, init, i, p);
        }
        var r := RecodedColumn(coded, width, p, labels);
        if r.Ok? {
          RecodedStep(rows, coded, r.value, width, names, cats, init, p);
        }
      }
    }
  }

  /** Python `xs[i]` on a list: negative positions count from the end. */
  function PyIndex(xs: seq<Cell>, i: int): (r: Result<Cell, Error>)
    ensures r.Ok? <==> -|xs| <= i < |xs|
    ensures r.Err? ==> r.error == IndexError
    ensures 0 <= i < |xs| ==> r == Ok(xs[i])
    ensures -|xs| <= i < 0 ==> r == Ok(xs[|xs| + i])
  {
    if 0 <= i < |xs| then Ok(xs[i])
    else if -|xs| <= i < 0 then Ok(xs[|xs| + i])
    else Err(IndexError)
  }

  /** How a decoder turns a cell into a list position: Anchors indexes with
      the cell itself (a list index must be an int: TypeError otherwise);
      SP-LIME's `custom_predict` indexes with `int(x)`. */
  datatype IndexRead = AsIs | Truncating

  /** Python `int(x)` of a float: truncation toward zero. */
  function Truncate(x: real): (r: int)
    ensures 0.0 <= x ==> r as real <= x < r as real + 1.0
    ensures x < 0.0 ==> r as real - 1.0 < x <= r as real
  {
    if x >= 0.0 then x.Floor else -((-x).Floor)
  }

  /** The list position a cell stands for. */
  function IndexOf(c: Cell, read: IndexRead): (r: Result<int, Error>)
    ensures c.Int? ==> r == Ok(c.i)
    ensures read == AsIs && !c.Int? ==> r == Err(TypeError)
    ensures read == Truncating && c.Real? ==> r == Ok(Truncate(c.r))
  {
    match c
    case Int(i) => Ok(i)
    case Real(x) => if read == Truncating then Ok(Truncate(x)) else Err(TypeError)
    case Text(t) =>
      if read == AsIs then Err(TypeError)
      else match ParseInt(t)
        case None => Err(ValueError)
        case Some(i) => Ok(i)
  }

  /** `labels[entry]` (Anchors) or `labels[int(x)]` (SP-LIME) for one cell. */
  function DecodeCell(labels: seq<Cell>, c: Cell, read: IndexRead): (r: Result<Cell, Error>)
    ensures c.Int? ==> r == PyIndex(labels, c.i)
  {
    match IndexOf(c, read)
    case Err(e) => Err(e)
    case Ok(i) => PyIndex(labels, i)
  }

  /** Decoding the code of a label gives the label back. */
  lemma DecodeCode(labels: seq<Cell>, c: Cell, read: IndexRead)
    requires Distinct(Strs(labels)) && c in labels
    ensures Code(labels, c).Ok? && DecodeCell(labels, Code(labels, c).value, read) == Ok(c)
  {
    var k :| 0 <= k < |labels| && labels[k] == c;
    CodeOfLabel(labels, k);
  }

  /** `series.map(f)`: `f` is applied in order and the first exception
      propagates. */
  function DecodeCells(cells: seq<Cell>, labels: seq<Cell>, read: IndexRead): (r: Result<seq<Cell>, Error>)
    ensures r.Ok? <==> forall i :: 0 <= i < |cells| ==> DecodeCell(labels, cells[i], read).Ok?
    ensures r.Ok? ==> |r.value| == |cells| && forall i :: 0 <= i < |cells| ==> r.value[i] == DecodeCell(labels, cells[i], read).value
  {
    if cells == [] then Ok([])
    else
      match DecodeCell(labels, cells[0], read)
      case Err(e) => Err(e)
      case Ok(v) =>
        match DecodeCells(cells[1..], labels, read)
        case Err(e) => Err(e)
        case Ok(vs) => Ok([v] + vs)
  }

  /** `df[names[p]] = df[names[p]].map(lambda entry: cats[names[p]][entry])`
      on `pd.DataFrame(rows, columns=names)`: `names[p]` raises IndexError
      past the end; the lookup of the label list runs once per cell, so an
      empty table never raises KeyError; the first undecodable cell raises. */
  function DecodedColumn(rows: seq<seq<Cell>>, names: seq<string>, cats: Categories, p: nat, read: IndexRead)
    : (r: Result<seq<seq<Cell>>, Error>)
    requires Rectangular(rows, |names|)
    ensures r.Ok? ==> |r.value| == |rows| && Rectangular(r.value, |names|)
    ensures p >= |names| ==> r == Err(IndexError)
    ensures p < |names| && rows == [] ==> r == Ok(rows)
    ensures p < |names| && rows != [] && names[p] !in cats ==> r == Err(KeyError)
    ensures p < |names| && rows != [] && names[p] in cats ==>
      var q := ColumnPos(names, names[p]).value;
      (r.Ok? <==> forall i :: 0 <= i < |rows| ==> DecodeCell(cats[names[p]], rows[i][q], read).Ok?)
      && (r.Ok? ==> forall i, k :: 0 <= i < |rows| && 0 <= k < |names| ==>
            r.value[i][k] == if k == q then DecodeCell(cats[names[p]], rows[i][q], read).value else rows[i][k])
  {
    if p >= |names| then Err(IndexError)
    else if rows == [] then Ok(rows)
    else if names[p] !in cats then Err(KeyError)
    else
      var q := ColumnPos(names, names[p]).value;
      var cells := seq(|rows|, i requires 0 <= i < |rows| => rows[i][q]);
      assert forall i :: 0 <= i < |rows| ==> cells[i] == rows[i][q];
      match DecodeCells(cells, cats[names[p]], read)
      case Err(e) => Err(e)
      case Ok(column) => Ok(seq(|rows|, i requires 0 <= i < |rows| => rows[i][q := column[i]]))
  }

  /** The table after the columns at `ps` were decoded in order; the first
      column that fails decides the exception. */
  function DecodedRows(rows: seq<seq<Cell>>, names: seq<string>, cats: Categories, ps: seq<nat>, read: IndexRead)
    : (r: Result<seq<seq<Cell>>, Error>)
    requires Rectangular(rows, |names|)
    ensures r.Ok? ==> |r.value| == |rows| && Rectangular(r.value, |names|)
  {
    if ps == [] then Ok(rows)
    else
      match DecodedRows(rows, names, cats, ps[..|ps| - 1], read)
      case Err(e) => Err(e)
      case Ok(decoded) => DecodedColumn(decoded, names, cats, ps[|ps| - 1], read)
  }

  lemma {:induction false} DecodedRowsFails(rows: seq<seq<Cell>>, names: seq<string>, cats: Categories, ps: seq<nat>, read: IndexRead, j: nat)
    requires Rectangular(rows, |names|)
    requires j <= |ps| && DecodedRows(rows, names, cats, ps[..j], read).Err?
    ensures DecodedRows(rows, names, cats, ps, read) == DecodedRows(rows, names, cats, ps[..j], read)
  {
    if j == |ps| {
      assert ps[..j] == ps;
    } else {
      var init := ps[..|ps| - 1];
      assert init[..j] == ps[..j];
      DecodedRowsFails(rows, names, cats, init, read, j);
    }
  }

  /** The decoding loop shared by Anchors' `inverse_transform_dataset` and
      SP-LIME's `custom_predict`: the columns at `ps` are decoded one after
      the other. */
  method DecodeCategories(rows: seq<seq<Cell>>, names: seq<string>, cats: Categories, ps: seq<nat>, read: IndexRead)
    returns (r: Result<seq<seq<Cell>>, Error>)
    requires Rectangular(rows, |names|)
    ensures r == DecodedRows(rows, names, cats, ps, read)
  {
    var current := rows;
    for j := 0 to |ps|
      invariant DecodedRows(rows, names, cats, ps[..j], read) == Ok(current)
    {
      assert ps[..j + 1][..j] == ps[..j];
      var decoded := DecodedColumn(current, names, cats, ps[j], read);
      if decoded.Err? {
        DecodedRowsFails(rows, names, cats, ps, read, j + 1);
        return Err(decoded.error);
      }
      current := decoded.value;
    }
    assert ps[..|ps|] == ps;
    r := Ok(current);
  }

  /** Decoding the first of the still coded columns `p :: rest` restores
      its cells: afterwards only the columns `rest` are coded. */
  lemma DecodedStep(rows: seq<seq<Cell>>, cur: seq<seq<Cell>>, names: seq<string>, cats: Categories,
                    p: nat, rest: seq<nat>, read: IndexRead)
    requires CodedFrom(rows, cur, |names|, names, cats, [p] + rest) && p !in rest && Distinct(names)
    requires p < |names| && names[p] in cats && Distinct(Strs(cats[names[p]]))
    requires forall i :: 0 <= i < |rows| ==> rows[i][p] in cats[names[p]]
    ensures DecodedColumn(cur, names, cats, p, read).Ok?
    ensures CodedFrom(rows, DecodedColumn(cur, names, cats, p, read).value, |names|, names, cats, rest)
  {
    ColumnPosDistinct(names, p);
    var labels := cats[names[p]];
    forall i | 0 <= i < |rows| ensures DecodeCell(labels, cur[i][p], read) == Ok(rows[i][p]) {
      assert CodedCell(rows, cur, names, cats, [p] + rest, i, p);
      DecodeCode(labels, rows[i][p], read);
    }
    var out := DecodedColumn(cur, names, cats, p, read);
    assert out.Ok?;
    forall i: nat, q: nat | i < |rows| && q < |names|
      ensures CodedCell(rows, out.value, names, cats, rest, i, q)
    {
      assert CodedCell(rows, cur, names, cats, [p] + rest, i, q);
    }
  }

  /** Decoding a prefix of the coded columns `ps` leaves only the
      remaining ones coded. */
  lemma {:induction false} DecodedPrefix(rows: seq<seq<Cell>>, cur: seq<seq<Cell>>, names: seq<string>, cats: Categories,
                                          ps: seq<nat>, read: IndexRead, j: nat)
    requires CodedFrom(rows, cur, |names|, names, cats, ps) && Distinct(names) && j <= |ps|
    requires forall a, b :: 0 <= a < b < |ps| ==> ps[a] < ps[b]
    requires forall k :: 0 <= k < |ps| ==> ps[k] < |names| && names[ps[k]] in cats && Distinct(Strs(cats[names[ps[k]]]))
    requires forall k, i :: 0 <= k < |ps| && 0 <= i < |rows| ==> rows[i][ps[k]] in cats[names[ps[k]]]
    ensures DecodedRows(cur, names, cats, ps[..j], read).Ok?
    ensures CodedFrom(rows, DecodedRows(cur, names, cats, ps[..j], read).value, |names|, names, cats, ps[j..])
  {
    if j == 0 {
      assert ps[..0] == [] && ps[0..] == ps;
    } else {
      DecodedPrefix(rows, cur, names, cats, ps, read, j - 1);
      var before := DecodedRows(cur, names, cats, ps[..j - 1], read).value;
      assert ps[..j][..j - 1] == ps[..j - 1];
      var p := ps[j - 1];
      assert ps[j - 1..] == [p] + ps[j..];
      assert p !in ps[j..] by {
        forall k | j <= k < |ps| ensures ps[k] != p {
          assert ps[j - 1] < ps[k];
        }
      }
      forall i | 0 <= i < |rows| ensures rows[i][p] in cats[names[p]] {
        assert rows[i][ps[j - 1]] in cats[names[ps[j - 1]]];
      }
      DecodedStep(rows, before, names, cats, p, ps[j..], read);
    }
  }

  /** With no column left coded the table is the original one. */
  lemma NoneCoded(rows: seq<seq<Cell>>, out: seq<seq<Cell>>, names: seq<string>, cats: Categories)
    requires CodedFrom(rows, out, |names|, names, cats, [])
    ensures out == rows
  {
    forall i | 0 <= i < |rows| ensures out[i] == rows[i] {
      forall q: nat | q < |names| ensures out[i][q] == rows[i][q] {
        assert CodedCell(rows, out, names, cats, [], i, q);
      }
    }
  }

  /** The coding round trip of the Anchors explainers and the SP-LIME
      samplers: with distinct feature names, labels that print differently,
      and every categorical cell one of its feature's labels, coding the
      categorical columns and decoding them again (either way of reading a
      position) restores the table. On an empty table `np.vectorize` refuses
      to code, so there the features must all be ordinal. */
  lemma CodingRoundTrip(rows: seq<seq<Cell>>, names: seq<string>, cats: Categories, read: IndexRead)
    requires Rectangular(rows, |names|) && Distinct(names)
    requires forall p :: 0 <= p < |names| && names[p] in cats ==>
               Distinct(Strs(cats[names[p]])) && forall i :: 0 <= i < |rows| ==> rows[i][p] in cats[names[p]]
    requires rows != [] || forall p :: 0 <= p < |names| ==> names[p] !in cats
    ensures var ps := Positions(names, cats, true);
            CodedRows(rows, |names|, names, cats, ps).Ok?
            && DecodedRows(CodedRows(rows, |names|, names, cats, ps).value, names, cats, ps, read) == Ok(rows)
  {
    var ps := Positions(names, cats, true);
    forall j, i | 0 <= j < |ps| && 0 <= i < |rows| ensures Code(cats[names[ps[j]]], rows[i][ps[j]]).Ok? {
      DecodeCode(cats[names[ps[j]]], rows[i][ps[j]], read);
    }
    CodedRowsCells(rows, |names|, names, cats, ps);
    var coded := CodedRows(rows, |names|, names, cats, ps).value;
    DecodedPrefix(rows, coded, names, cats, ps, read, |ps|);
    assert ps[..|ps|] == ps && ps[|ps|..] == [];
    NoneCoded(rows, DecodedRows(coded, names, cats, ps, read).value, names, cats);
  }
}
