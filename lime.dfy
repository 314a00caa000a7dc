/** The LIME-family explainers: `DLimeExplainer` of
    astrapia/explainers/dlime.py and its older twin `LimeExplainer` of
    xaibenchmark/explainers/lime.py. Both work on the one-hot encoding of
    module Utils and decode the tables their library hands back by taking,
    per categorical feature, the label of the largest indicator. */
module Lime {
  import opened Values
  import opened Text
  import opened Frames
  import opened Utils

  /** A cell as `to_numpy()` hands it to `np.argmax`: numbers compare by
      value. */
  function CellValue(c: Cell): (r: Option<real>)
    ensures r.None? <==> c.Text?
  {
    match c
    case Int(i) => Some(i as real)
    case Real(x) => Some(x)
    case Text(_) => None
  }

  /** `np.argmax` over one row: the position of the first largest value. */
  function ArgMax(xs: seq<real>): (r: nat)
    requires |xs| > 0
    ensures r < |xs|
    ensures forall k :: 0 <= k < |xs| ==> xs[k] <= xs[r]
    ensures forall k :: 0 <= k < r ==> xs[k] < xs[r]
  {
    if |xs| == 1 then 0
    else
      var m := ArgMax(xs[..|xs| - 1]);
      assert xs[..|xs| - 1][m] == xs[m];
      if xs[|xs| - 1] > xs[m] then |xs| - 1 else m
  }

  /** The argmax of a one-hot row is the position of its one. */
  lemma ArgMaxOneHot(xs: seq<real>, p: nat)
    requires p < |xs| && xs[p] == 1.0
    requires forall k :: 0 <= k < |xs| && k != p ==> xs[k] == 0.0
    ensures ArgMax(xs) == p
  {
  }

  /** Ties go to the first maximum: an all-zero row decodes to the first
      label. */
  lemma ArgMaxAllZero(xs: seq<real>)
    requires |xs| > 0 && forall k :: 0 <= k < |xs| ==> xs[k] == 0.0
    ensures ArgMax(xs) == 0
  {
  }

  /** The indicator column names of one feature, in label order. */
  function BlockNames(f: Feature): (names: seq<string>)
    ensures |names| == |f.labels| && forall k :: 0 <= k < |names| ==> names[k] == IndicatorName((f.name, f.labels[k]))
  {
    seq(|f.labels|, k requires 0 <= k < |f.labels| => IndicatorName((f.name, f.labels[k])))
  }

  /** The cell of row `i` in the column named `name`. */
  function CellAt(data: Frame, i: nat, name: string): Cell
    requires WellFormed(data) && i < |data.rows| && name in data.columns
  {
    data.rows[i][ColumnPos(data.columns, name).value]
  }

  /** The indicator values of feature `f` in row `i`. */
  function BlockRow(data: Frame, f: Feature, i: nat): (xs: seq<real>)
    requires WellFormed(data) && i < |data.rows|
    requires forall k :: 0 <= k < |f.labels| ==> BlockNames(f)[k] in data.columns
    requires forall k :: 0 <= k < |f.labels| ==> CellValue(CellAt(data, i, BlockNames(f)[k])).Some?
    ensures |xs| == |f.labels|
  {
    seq(|f.labels|, k requires 0 <= k < |f.labels| => CellValue(CellAt(data, i, BlockNames(f)[k])).value)
  }

  /** The decoded column of one categorical feature: `data[[f+'_'+str(l) for l
      in labels]]` raises KeyError for a missing indicator; `np.argmax` of an
      empty block raises ValueError, and of a text cell TypeError; each row
      gets the label at the argmax of its block. */
  function DecodedFeature(data: Frame, f: Feature): (r: Result<seq<Cell>, Error>)
    requires WellFormed(data)
    ensures r.Ok? ==> |r.value| == |data.rows|
  {
    var names := BlockNames(f);
    if exists k :: 0 <= k < |names| && names[k] !in data.columns then Err(KeyError)
    else if |f.labels| == 0 then Err(ValueError)
    else if exists i, k :: 0 <= i < |data.rows| && 0 <= k < |names| && CellAt(data, i, names[k]).Text? then Err(TypeError)
    else Ok(seq(|data.rows|, i requires 0 <= i < |data.rows| => f.labels[ArgMax(BlockRow(data, f, i))]))
  }

  /** The decoded columns of the first features, keyed by feature name; the
      first feature that fails decides the exception. */
  function DecodedColumns(data: Frame, schema: Schema): (r: Result<map<string, seq<Cell>>, Error>)
    requires WellFormed(data)
    ensures r.Ok? ==> forall c :: c in r.value <==> c in Names(schema)
    ensures r.Ok? ==> forall c :: c in r.value ==> |r.value[c]| == |data.rows|
  {
    if schema == [] then Ok(map[])
    else
      match DecodedColumns(data, schema[..|schema| - 1])
      case Err(e) => Err(e)
      case Ok(m) =>
        match DecodedFeature(data, schema[|schema| - 1])
        case Err(e) => Err(e)
        case Ok(col) => Ok(m[schema[|schema| - 1].name := col])
  }

  /** `meta.feature_names - meta.categorical_features.keys()`. */
  predicate Continuous(schema: Schema, featureNames: seq<string>, c: string)
  {
    c in featureNames && c !in Names(schema)
  }

  /** `df[name] = data[name]` for the continuous features, over the decoded
      categorical columns: a continuous column replaces a decoded one of the
      same name. */
  function WithContinuous(data: Frame, schema: Schema, featureNames: seq<string>, cat: map<string, seq<Cell>>)
    : (df: map<string, seq<Cell>>)
    requires WellFormed(data)
    requires forall c :: c in featureNames && Continuous(schema, featureNames, c) ==> c in data.columns
    ensures forall c :: c in df <==> c in cat || (c in featureNames && Continuous(schema, featureNames, c))
    ensures forall c :: c in df && c in featureNames && Continuous(schema, featureNames, c) ==> df[c] == Column(data, c).value
    ensures forall c :: c in df && !(c in featureNames && Continuous(schema, featureNames, c)) ==> df[c] == cat[c]
  {
    cat + map c | c in featureNames && Continuous(schema, featureNames, c) :: Column(data, c).value
  }

  /** `df[out]` under `index`: the columns of `out`, in order, each of `n`
      cells. */
  function Selected(index: seq<Cell>, df: map<string, seq<Cell>>, out: seq<string>): (r: Frame)
    requires forall c :: c in out ==> c in df && |df[c]| == |index|
    ensures WellFormed(r) && r.columns == out && r.index == index
    ensures forall i, q :: 0 <= i < |index| && 0 <= q < |out| ==> r.rows[i][q] == df[out[q]][i]
  {
    Frame(out, index, seq(|index|, i requires 0 <= i < |index| =>
                        seq(|out|, q requires 0 <= q < |out| => df[out[q]][i])))
  }

  /** The table `inverse_transform_dataset(data, meta)` returns, with
      `featureNames` for `meta.feature_names` and `out` for
      `meta.data.keys()`: the categorical features decoded, the continuous
      ones copied, and the columns of `out` selected in order under the
      row index of `data`. */
  function Decoded(data: Frame, schema: Schema, featureNames: seq<string>, out: seq<string>): (r: Result<Frame, Error>)
    requires WellFormed(data)
  {
    match DecodedColumns(data, schema)
    case Err(e) => Err(e)
    case Ok(cat) =>
      if exists c :: c in featureNames && Continuous(schema, featureNames, c) && c !in data.columns then Err(KeyError)
      else
        var df := WithContinuous(data, schema, featureNames, cat);
        if exists c :: c in out && c !in df then Err(KeyError)
        else Ok(Selected(data.index, df, out))
  }

  /** A failing prefix of the features makes the whole decoding fail the
      same way. */
  lemma {:induction false} DecodedColumnsFails(data: Frame, schema: Schema, j: nat)
    requires WellFormed(data) && j <= |schema| && DecodedColumns(data, schema[..j]).Err?
    ensures DecodedColumns(data, schema) == DecodedColumns(data, schema[..j])
  {
    if j == |schema| {
      assert schema[..j] == schema;
    } else {
      var init := schema[..|schema| - 1];
      assert init[..j] == schema[..j];
      DecodedColumnsFails(data, init, j);
    }
  }

  /** `inverse_transform_dataset(data, meta)`: a new table under the index
      of `data` receives one decoded column per categorical feature, in
      dictionary order, then the continuous columns, and is cut down to the
      columns of `out`. */
  method InverseTransformDataset(data: Frame, schema: Schema, featureNames: seq<string>, out: seq<string>)
    returns (r: Result<Frame, Error>)
    requires WellFormed(data)
    ensures r == Decoded(data, schema, featureNames, out)
  {
    var df: map<string, seq<Cell>> := map[];
    for j := 0 to |schema|
      invariant DecodedColumns(data, schema[..j]) == Ok(df)
    {
      assert schema[..j + 1][..j] == schema[..j];
      var column := DecodedFeature(data, schema[j]);
      if column.Err? {
        DecodedColumnsFails(data, schema, j + 1);
        return Err(column.error);
      }
      df := df[schema[j].name := column.value];
    }
    assert schema[..|schema|] == schema;
    if exists c :: c in featureNames && Continuous(schema, featureNames, c) && c !in data.columns {
      return Err(KeyError);
    }
    df := WithContinuous(data, schema, featureNames, df);
    if exists c :: c in out && c !in df {
      return Err(KeyError);
    }
    r := Ok(Selected(data.index, df, out));
  }

  /** The tables the round trip is about: distinct column labels; every
      feature a column, with a non-empty list of labels no two of which are
      equal; every categorical cell one of its feature's labels; and
      indicator names that clash with no other column. */
  ghost predicate Encodable(x: Frame, schema: Schema)
  {
    WellFormed(x) && Distinct(x.columns) && SchemaOk(schema)
    && (forall s :: 0 <= s < |schema| ==> schema[s].name in x.columns && |schema[s].labels| > 0)
    && (forall s, a, b :: 0 <= s < |schema| && 0 <= a < b < |schema[s].labels| ==>
          !CellEq(schema[s].labels[a], schema[s].labels[b]))
    && (forall s, i :: 0 <= s < |schema| && 0 <= i < |x.rows| ==> CellAt(x, i, schema[s].name) in schema[s].labels)
    && Distinct(EncodedColumns(x.columns, schema))
  }

  lemma EncodableEncodes(x: Frame, schema: Schema)
    requires Encodable(x, schema)
    ensures Encoded(x, schema).Ok?
  {
    forall t | 0 <= t < |Pairs(schema)|
      ensures Pairs(schema)[t].0 in x.columns
    {
      PairsFeatures(schema, t);
    }
  }

  /** The encoded table's columns are the encoded column names. */
  lemma EncodedColumnsOf(x: Frame, schema: Schema)
    requires WellFormed(x)
    ensures Encoded(x, schema).Ok? ==> Encoded(x, schema).value.columns == EncodedColumns(x.columns, schema)
  {
  }

  /** The column names of the encoded table: the indicator of pair `t`
      comes after the kept columns. */
  lemma EncodedColumnAt(columns: seq<string>, schema: Schema, t: nat)
    requires t < |Pairs(schema)|
    ensures |KeptPositions(columns, schema)| + t < |EncodedColumns(columns, schema)|
    ensures EncodedColumns(columns, schema)[|KeptPositions(columns, schema)| + t] == IndicatorName(Pairs(schema)[t])
  {
  }

  /** The indicator column of label `k` of feature `s` sits after the kept
      columns, at the position of its pair. */
  lemma BlockInEncoded(x: Frame, schema: Schema, s: nat, k: nat) returns (t: nat)
    requires Encodable(x, schema) && s < |schema| && k < |schema[s].labels|
    ensures t < |Pairs(schema)| && Pairs(schema)[t] == (schema[s].name, schema[s].labels[k])
    ensures Encoded(x, schema).Ok? && var enc := Encoded(x, schema).value;
      BlockNames(schema[s])[k] in enc.columns
      && ColumnPos(enc.columns, BlockNames(schema[s])[k]) == Some(|KeptPositions(x.columns, schema)| + t)
  {
    EncodableEncodes(x, schema);
    t := PairOf(schema, s, k);
    BlockColumnAt(x.columns, schema, s, k, t);
    ColumnPosOf(EncodedColumns(x.columns, schema), BlockNames(schema[s])[k], |KeptPositions(x.columns, schema)| + t);
    EncodedColumnsOf(x, schema);
  }

  /** The same position, on the column names alone. */
  lemma BlockColumnAt(columns: seq<string>, schema: Schema, s: nat, k: nat, t: nat)
    requires s < |schema| && k < |schema[s].labels|
    requires t < |Pairs(schema)| && Pairs(schema)[t] == (schema[s].name, schema[s].labels[k])
    ensures |KeptPositions(columns, schema)| + t < |EncodedColumns(columns, schema)|
    ensures EncodedColumns(columns, schema)[|KeptPositions(columns, schema)| + t] == BlockNames(schema[s])[k]
  {
    EncodedColumnAt(columns, schema, t);
    BlockNameOfPair(schema[s], k, Pairs(schema)[t]);
  }

  /** The indicator name of label `k` of `f` is the one of its pair. */
  lemma BlockNameOfPair(f: Feature, k: nat, p: (string, Cell))
    requires k < |f.labels| && p == (f.name, f.labels[k])
    ensures BlockNames(f)[k] == IndicatorName(p)
  {
  }

  /** In the encoded table, the indicator of label `k` of feature `s` holds
      1 on row `i` exactly when the row's feature value equals that label,
      and 0 otherwise. */
  lemma EncodedBlockCell(x: Frame, schema: Schema, s: nat, k: nat, i: nat)
    requires Encodable(x, schema) && s < |schema| && k < |schema[s].labels| && i < |x.rows|
    ensures Encoded(x, schema).Ok? && var enc := Encoded(x, schema).value;
      WellFormed(enc) && |enc.rows| == |x.rows| && BlockNames(schema[s])[k] in enc.columns
      && (CellAt(enc, i, BlockNames(schema[s])[k]) == Int(1) <==> CellEq(CellAt(x, i, schema[s].name), schema[s].labels[k]))
      && (CellAt(enc, i, BlockNames(schema[s])[k]) == Int(0) <==> !CellEq(CellAt(x, i, schema[s].name), schema[s].labels[k]))
  {
    var t := BlockInEncoded(x, schema, s, k);
    EncodedShape(x, schema);
    EncodedIndicator(x, schema, t, i);
  }

  /** A row whose indicator block is the one-hot encoding of `v`, under
      labels no two of which are equal, decodes to `v`. */
  lemma DecodedRowOneHot(data: Frame, f: Feature, i: nat, v: Cell)
    requires WellFormed(data) && i < |data.rows| && v in f.labels
    requires forall a, b :: 0 <= a < b < |f.labels| ==> !CellEq(f.labels[a], f.labels[b])
    requires forall k :: 0 <= k < |f.labels| ==> BlockNames(f)[k] in data.columns
    requires forall k :: 0 <= k < |f.labels| ==> CellAt(data, i, BlockNames(f)[k]) == IndicatorCell(v, f.labels[k])
    requires forall k :: 0 <= k < |f.labels| ==> CellAt(data, i, BlockNames(f)[k]).Int?
    ensures f.labels[ArgMax(BlockRow(data, f, i))] == v
  {
    var p :| 0 <= p < |f.labels| && f.labels[p] == v;
    CellEqReflexive(v);
    OneHot(v, f.labels);
    var xs := BlockRow(data, f, i);
    forall k | 0 <= k < |xs| && k != p
      ensures xs[k] == 0.0
    {
      assert IndicatorCell(v, f.labels[k]) != Int(1);
    }
    ArgMaxOneHot(xs, p);
  }

  /** A table whose indicator block for `f` is the one-hot encoding of
      `column` decodes to `column`. */
  lemma DecodedFeatureOneHot(data: Frame, f: Feature, column: seq<Cell>)
    requires WellFormed(data) && |column| == |data.rows| && |f.labels| > 0
    requires forall a, b :: 0 <= a < b < |f.labels| ==> !CellEq(f.labels[a], f.labels[b])
    requires forall k :: 0 <= k < |f.labels| ==> BlockNames(f)[k] in data.columns
    requires forall i :: 0 <= i < |column| ==> column[i] in f.labels
    requires forall i, k :: 0 <= i < |data.rows| && 0 <= k < |f.labels| ==>
      CellAt(data, i, BlockNames(f)[k]) == IndicatorCell(column[i], f.labels[k])
    ensures DecodedFeature(data, f) == Ok(column)
  {
    forall i, k | 0 <= i < |data.rows| && 0 <= k < |f.labels|
      ensures CellAt(data, i, BlockNames(f)[k]).Int?
    {
      assert CellAt(data, i, BlockNames(f)[k]) == IndicatorCell(column[i], f.labels[k]);
    }
    var decoded := seq(|data.rows|, i requires 0 <= i < |data.rows| => f.labels[ArgMax(BlockRow(data, f, i))]);
    forall i | 0 <= i < |data.rows|
      ensures decoded[i] == column[i]
    {
      DecodedRowOneHot(data, f, i, column[i]);
    }
    assert decoded == column;
  }

  /** Decoding the block of one feature gives back that feature's column. */
  lemma DecodedFeatureOfEncoded(x: Frame, schema: Schema, s: nat)
    requires Encodable(x, schema) && s < |schema|
    ensures Encoded(x, schema).Ok? && WellFormed(Encoded(x, schema).value)
    ensures DecodedFeature(Encoded(x, schema).value, schema[s]) == Column(x, schema[s].name)
  {
    EncodableEncodes(x, schema);
    EncodedShape(x, schema);
    var enc := Encoded(x, schema).value;
    var f := schema[s];
    var column := Column(x, f.name).value;
    forall k | 0 <= k < |f.labels|
      ensures BlockNames(f)[k] in enc.columns
    {
      var _ := BlockInEncoded(x, schema, s, k);
    }
    forall i, k | 0 <= i < |enc.rows| && 0 <= k < |f.labels|
      ensures CellAt(enc, i, BlockNames(f)[k]) == IndicatorCell(column[i], f.labels[k])
    {
      EncodedBlockCell(x, schema, s, k, i);
    }
    forall i | 0 <= i < |column|
      ensures column[i] in f.labels
    {
      assert column[i] == CellAt(x, i, f.name);
    }
    DecodedFeatureOneHot(enc, f, column);
  }

  /** Decoding the blocks of the first `j` features of an encoded table
      gives back their columns. */
  lemma {:induction false} DecodedColumnsOfEncoded(x: Frame, schema: Schema, j: nat)
    requires Encodable(x, schema) && j <= |schema|
    ensures Encoded(x, schema).Ok? && WellFormed(Encoded(x, schema).value)
    ensures var cat := DecodedColumns(Encoded(x, schema).value, schema[..j]);
      cat.Ok? && forall c :: c in cat.value ==> c in x.columns && cat.value[c] == Column(x, c).value
  {
    EncodableEncodes(x, schema);
    EncodedShape(x, schema);
    if j > 0 {
      DecodedColumnsOfEncoded(x, schema, j - 1);
      assert schema[..j][..j - 1] == schema[..j - 1];
      assert schema[..j][j - 1] == schema[j - 1];
      DecodedFeatureOfEncoded(x, schema, j - 1);
    }
  }

  /** A column that is no categorical feature is carried through the
      encoding unchanged. */
  lemma KeptColumnOfEncoded(x: Frame, schema: Schema, q: nat)
    requires Encodable(x, schema) && q < |x.columns| && x.columns[q] !in Names(schema)
    ensures Encoded(x, schema).Ok? && WellFormed(Encoded(x, schema).value)
    ensures x.columns[q] in Encoded(x, schema).value.columns
    ensures Column(Encoded(x, schema).value, x.columns[q]) == Column(x, x.columns[q])
  {
    EncodableEncodes(x, schema);
    EncodedShape(x, schema);
    var enc := Encoded(x, schema).value;
    var kept := KeptPositions(x.columns, schema);
    KeptMember(x.columns, schema, q);
    var j :| 0 <= j < |kept| && kept[j] == q;
    assert enc.columns == EncodedColumns(x.columns, schema);
    ColumnPosDistinct(enc.columns, j);
    ColumnPosDistinct(x.columns, q);
    assert Column(enc, x.columns[q]).value == Column(x, x.columns[q]).value;
  }

  /** A table whose categorical blocks decode to the columns of `x` and
      which carries the other columns of `x` unchanged decodes back to `x`. */
  lemma DecodedRestores(data: Frame, schema: Schema, x: Frame)
    requires WellFormed(data) && WellFormed(x) && Distinct(x.columns)
    requires data.index == x.index && |data.rows| == |x.rows|
    requires var cat := DecodedColumns(data, schema);
      cat.Ok? && forall c :: c in cat.value ==> c in x.columns && cat.value[c] == Column(x, c).value
    requires forall c :: c in x.columns && c !in Names(schema) ==> c in data.columns && Column(data, c) == Column(x, c)
    ensures Decoded(data, schema, x.columns, x.columns) == Ok(x)
  {
    var cat := DecodedColumns(data, schema).value;
    var df := WithContinuous(data, schema, x.columns, cat);
    forall c | c in x.columns
      ensures c in df && df[c] == Column(x, c).value
    {
    }
    var r := Selected(data.index, df, x.columns);
    forall i | 0 <= i < |x.rows|
      ensures r.rows[i] == x.rows[i]
    {
      forall q | 0 <= q < |x.columns|
        ensures r.rows[i][q] == x.rows[i][q]
      {
        ColumnPosDistinct(x.columns, q);
      }
    }
    assert r.rows == x.rows;
  }

  /** Round trip: decoding the one-hot encoding of a table, asking back all
      of its columns, restores the table. */
  lemma DecodeEncode(x: Frame, schema: Schema)
    requires Encodable(x, schema)
    ensures Encoded(x, schema).Ok? && WellFormed(Encoded(x, schema).value)
    ensures Decoded(Encoded(x, schema).value, schema, x.columns, x.columns) == Ok(x)
  {
    EncodableEncodes(x, schema);
    EncodedShape(x, schema);
    DecodedColumnsOfEncoded(x, schema, |schema|);
    assert schema[..|schema|] == schema;
    forall c | c in x.columns && c !in Names(schema)
      ensures c in Encoded(x, schema).value.columns && Column(Encoded(x, schema).value, c) == Column(x, c)
    {
      var q :| 0 <= q < |x.columns| && x.columns[q] == c;
      KeptColumnOfEncoded(x, schema, q);
    }
    DecodedRestores(Encoded(x, schema).value, schema, x);
  }
}
