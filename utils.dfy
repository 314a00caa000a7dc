/** astrapia/utils.py: the one-hot encoding of the categorical features that
    the LIME-family explainers feed their libraries, and the length guard
    in front of the classification report. */
module Utils {
  import opened Values
  import opened Text
  import opened Frames

  /** One entry of `meta.categorical_features`: a categorical feature and
      the list of its labels. */
  datatype Feature = Feature(name: string, labels: seq<Cell>)

  /** `meta.categorical_features`, in dictionary order. */
  type Schema = seq<Feature>

  function Names(schema: Schema): (names: seq<string>)
    ensures |names| == |schema| && forall s :: 0 <= s < |schema| ==> names[s] == schema[s].name
  {
    seq(|schema|, s requires 0 <= s < |schema| => schema[s].name)
  }

  predicate Distinct<T(==)>(xs: seq<T>)
  {
    forall a, b :: 0 <= a < b < |xs| ==> xs[a] != xs[b]
  }

  /** Among distinct labels, `df[name]` finds the column at its own position. */
  lemma ColumnPosDistinct(columns: seq<string>, k: nat)
    requires Distinct(columns) && k < |columns|
    ensures ColumnPos(columns, columns[k]) == Some(k)
  {
  }

  /** A column named `name` at position `k` of distinct columns is the one
      `ColumnPos` finds. */
  lemma ColumnPosOf(columns: seq<string>, name: string, k: nat)
    requires Distinct(columns) && k < |columns| && columns[k] == name
    ensures name in columns && ColumnPos(columns, name) == Some(k)
  {
    ColumnPosDistinct(columns, k);
  }

  /** A dictionary holds each feature once. */
  predicate SchemaOk(schema: Schema)
  {
    Distinct(Names(schema))
  }

  /** The name of the indicator column of `label`: `feature + '_' + str(label)`. */
  function IndicatorName(p: (string, Cell)): string
  {
    p.0 + "_" + Show(p.1)
  }

  /** `(data[feature] == label).astype(int)` at one cell. */
  function IndicatorCell(c: Cell, category: Cell): (r: Cell)
    ensures r == Int(1) <==> CellEq(c, category)
    ensures r == Int(0) <==> !CellEq(c, category)
  {
    if CellEq(c, category) then Int(1) else Int(0)
  }

  /** The (feature, label) pairs of one feature, label by label. */
  function LabelPairs(f: Feature): (ps: seq<(string, Cell)>)
    ensures |ps| == |f.labels| && forall k :: 0 <= k < |ps| ==> ps[k] == (f.name, f.labels[k])
  {
    seq(|f.labels|, k requires 0 <= k < |f.labels| => (f.name, f.labels[k]))
  }

  /** All (feature, label) pairs: features in schema order, then labels in
      list order. */
  function Pairs(schema: Schema): seq<(string, Cell)>
  {
    if schema == [] then [] else Pairs(schema[..|schema| - 1]) + LabelPairs(schema[|schema| - 1])
  }

  lemma PairsNext(schema: Schema, j: nat)
    requires j < |schema|
    ensures Pairs(schema[..j + 1]) == Pairs(schema[..j]) + LabelPairs(schema[j])
  {
    assert schema[..j + 1][..j] == schema[..j];
  }

  /** The pairs of the first `j` features come first. */
  lemma {:induction false} PairsPrefix(schema: Schema, j: nat)
    requires j <= |schema|
    ensures |Pairs(schema[..j])| <= |Pairs(schema)|
    ensures forall t :: 0 <= t < |Pairs(schema[..j])| ==> Pairs(schema)[t] == Pairs(schema[..j])[t]
    decreases |schema| - j
  {
    if j < |schema| {
      PairsPrefix(schema, j + 1);
      PairsNext(schema, j);
    } else {
      assert schema[..j] == schema;
    }
  }

  /** Every label of every feature has its pair. */
  lemma {:induction false} PairsMember(schema: Schema, s: nat, k: nat)
    requires s < |schema| && k < |schema[s].labels|
    ensures exists t :: 0 <= t < |Pairs(schema)| && Pairs(schema)[t] == (schema[s].name, schema[s].labels[k])
  {
    var init := schema[..|schema| - 1];
    var tail := LabelPairs(schema[|schema| - 1]);
    if s == |schema| - 1 {
      assert Pairs(schema)[|Pairs(init)| + k] == tail[k];
    } else {
      assert init[s] == schema[s];
      PairsMember(init, s, k);
      var t :| 0 <= t < |Pairs(init)| && Pairs(init)[t] == (schema[s].name, schema[s].labels[k]);
      assert Pairs(schema)[t] == Pairs(init)[t];
    }
  }

  /** The position of the pair of label `k` of feature `s`. */
  lemma PairOf(schema: Schema, s: nat, k: nat) returns (t: nat)
    requires s < |schema| && k < |schema[s].labels|
    ensures t < |Pairs(schema)| && Pairs(schema)[t] == (schema[s].name, schema[s].labels[k])
  {
    PairsMember(schema, s, k);
    t :| 0 <= t < |Pairs(schema)| && Pairs(schema)[t] == (schema[s].name, schema[s].labels[k]);
  }

  /** Every pair belongs to a feature of the schema. */
  lemma {:induction false} PairsFeatures(schema: Schema, t: nat)
    requires t < |Pairs(schema)|
    ensures Pairs(schema)[t].0 in Names(schema)
  {
    var init := schema[..|schema| - 1];
    if t < |Pairs(init)| {
      PairsFeatures(init, t);
      var s :| 0 <= s < |init| && Names(init)[s] == Pairs(init)[t].0;
      assert Names(schema)[s] == Pairs(init)[t].0;
    } else {
      assert Names(schema)[|schema| - 1] == Pairs(schema)[t].0;
    }
  }

  /** The positions of the columns that are not categorical features, in
      table order: what `data[set(data.columns) - set(meta.categorical_features)]`
      keeps. */
  function KeptPositions(columns: seq<string>, schema: Schema): (ps: seq<nat>)
    ensures forall j :: 0 <= j < |ps| ==> ps[j] < |columns| && columns[ps[j]] !in Names(schema)
    ensures forall a, b :: 0 <= a < b < |ps| ==> ps[a] < ps[b]
  {
    if columns == [] then []
    else
      var init := KeptPositions(columns[..|columns| - 1], schema);
      if columns[|columns| - 1] in Names(schema) then init else init + [|columns| - 1]
  }

  /** Every non-categorical column is kept. */
  lemma {:induction false} KeptMember(columns: seq<string>, schema: Schema, q: nat)
    requires q < |columns| && columns[q] !in Names(schema)
    ensures exists j :: 0 <= j < |KeptPositions(columns, schema)| && KeptPositions(columns, schema)[j] == q
  {
    var init := columns[..|columns| - 1];
    if q < |columns| - 1 {
      assert init[q] == columns[q];
      KeptMember(init, schema, q);
      var j :| 0 <= j < |KeptPositions(init, schema)| && KeptPositions(init, schema)[j] == q;
      assert KeptPositions(columns, schema)[j] == q;
    } else {
      var ps := KeptPositions(columns, schema);
      assert ps[|ps| - 1] == q;
    }
  }

  function Select<T>(xs: seq<T>, positions: seq<nat>): (r: seq<T>)
    requires forall j :: 0 <= j < |positions| ==> positions[j] < |xs|
    ensures |r| == |positions| && forall j :: 0 <= j < |r| ==> r[j] == xs[positions[j]]
  {
    seq(|positions|, j requires 0 <= j < |positions| => xs[positions[j]])
  }

  /** Every feature named by a pair is a column of the table. */
  predicate PairsPresent(columns: seq<string>, ps: seq<(string, Cell)>)
  {
    forall t :: 0 <= t < |ps| ==> ps[t].0 in columns
  }

  /** The indicator column of pair `p`. */
  function IndicatorColumn(data: Frame, p: (string, Cell)): (col: seq<Cell>)
    requires WellFormed(data) && p.0 in data.columns
    ensures |col| == |data.rows|
  {
    var k := ColumnPos(data.columns, p.0).value;
    seq(|data.rows|, i requires 0 <= i < |data.rows| => IndicatorCell(data.rows[i][k], p.1))
  }

  /** The column labels of the encoded table. */
  function EncodedColumns(columns: seq<string>, schema: Schema): seq<string>
  {
    var ps := Pairs(schema);
    Select(columns, KeptPositions(columns, schema)) + seq(|ps|, t requires 0 <= t < |ps| => IndicatorName(ps[t]))
  }

  /** The table `onehot_encode(data, meta)` returns. A feature with labels
      that is not a column of `data` raises KeyError. */
  function Encoded(data: Frame, schema: Schema): (r: Result<Frame, Error>)
    requires WellFormed(data)
  {
    var ps := Pairs(schema);
    if !PairsPresent(data.columns, ps) then Err(KeyError)
    else
      var kept := KeptPositions(data.columns, schema);
      Ok(Frame(EncodedColumns(data.columns, schema), data.index,
               seq(|data.rows|, i requires 0 <= i < |data.rows| =>
                 Select(data.rows[i], kept) + seq(|ps|, t requires 0 <= t < |ps| => IndicatorColumn(data, ps[t])[i]))))
  }

  /** `onehot_encode(data, meta)`: for each feature and each of its labels
      one indicator column is appended to a list, and the list is joined
      after the non-categorical columns. */
  method OnehotEncode(data: Frame, schema: Schema) returns (r: Result<Frame, Error>)
    requires WellFormed(data)
    ensures r == Encoded(data, schema)
  {
    var kept := KeptPositions(data.columns, schema);
    var names: seq<string> := [];
    var cols: seq<seq<Cell>> := [];
    ghost var done: seq<(string, Cell)> := [];
    for j := 0 to |schema|
      invariant done == Pairs(schema[..j]) && PairsPresent(data.columns, done)
      invariant Indicators(data, done, names, cols)
    {
      var feature := schema[j];
      PairsNext(schema, j);
      for k := 0 to |feature.labels|
        invariant done == Pairs(schema[..j]) + LabelPairs(feature)[..k] && PairsPresent(data.columns, done)
        invariant Indicators(data, done, names, cols)
      {
        var category := feature.labels[k];
        var column := Column(data, feature.name);
        if column.Err? {
          MissingFeature(schema, j, k, data.columns);
          return Err(KeyError);
        }
        var indicator := seq(|column.value|, i requires 0 <= i < |column.value| => IndicatorCell(column.value[i], category));
        IndicatorOfColumn(data, (feature.name, category), indicator);
        IndicatorsNext(data, done, names, cols, (feature.name, category));
        names := names + [IndicatorName((feature.name, category))];
        cols := cols + [indicator];
        assert LabelPairs(feature)[..k + 1] == LabelPairs(feature)[..k] + [(feature.name, category)];
        done := done + [(feature.name, category)];
      }
      assert LabelPairs(feature)[..|feature.labels|] == LabelPairs(feature);
    }
    assert schema[..|schema|] == schema;
    EncodedOfColumns(data, schema, names, cols);
    r := Ok(Assembled(data, kept, names, cols));
  }

  /** The collected names and columns are the indicators of the pairs
      done so far. */
  predicate Indicators(data: Frame, done: seq<(string, Cell)>, names: seq<string>, cols: seq<seq<Cell>>)
    requires WellFormed(data) && PairsPresent(data.columns, done)
  {
    |names| == |done| == |cols|
    && forall t :: 0 <= t < |done| ==> names[t] == IndicatorName(done[t]) && cols[t] == IndicatorColumn(data, done[t])
  }

  lemma IndicatorsNext(data: Frame, done: seq<(string, Cell)>, names: seq<string>, cols: seq<seq<Cell>>, p: (string, Cell))
    requires WellFormed(data) && PairsPresent(data.columns, done) && p.0 in data.columns
    requires Indicators(data, done, names, cols)
    ensures PairsPresent(data.columns, done + [p])
    ensures Indicators(data, done + [p], names + [IndicatorName(p)], cols + [IndicatorColumn(data, p)])
  {
  }

  /** A label of a feature that is not a column has a pair that is not
      present. */
  lemma MissingFeature(schema: Schema, j: nat, k: nat, columns: seq<string>)
    requires j < |schema| && k < |schema[j].labels| && schema[j].name !in columns
    ensures !PairsPresent(columns, Pairs(schema))
  {
    PairsMember(schema, j, k);
  }

  /** The indicator column built from the feature's column is the one of
      its pair. */
  lemma IndicatorOfColumn(data: Frame, p: (string, Cell), indicator: seq<Cell>)
    requires WellFormed(data) && Column(data, p.0).Ok?
    requires indicator == seq(|Column(data, p.0).value|, i requires 0 <= i < |Column(data, p.0).value| =>
                                IndicatorCell(Column(data, p.0).value[i], p.1))
    ensures indicator == IndicatorColumn(data, p)
  {
  }

  /** `pd.concat([data[kept], pd.DataFrame(cols, names)], axis=1)`: the kept
      columns of `data` followed by the collected indicator columns. */
  function Assembled(data: Frame, kept: seq<nat>, names: seq<string>, cols: seq<seq<Cell>>): (r: Frame)
    requires WellFormed(data) && forall k :: 0 <= k < |kept| ==> kept[k] < |data.columns|
    requires |names| == |cols| && forall t :: 0 <= t < |cols| ==> |cols[t]| == |data.rows|
    ensures r.columns == Select(data.columns, kept) + names && r.index == data.index && |r.rows| == |data.rows|
    ensures forall i :: 0 <= i < |data.rows| ==> |r.rows[i]| == |kept| + |cols|
    ensures forall i, t :: 0 <= i < |data.rows| && 0 <= t < |cols| ==> r.rows[i][|kept| + t] == cols[t][i]
  {
    Frame(Select(data.columns, kept) + names, data.index,
          seq(|data.rows|, i requires 0 <= i < |data.rows| =>
            Select(data.rows[i], kept) + seq(|cols|, t requires 0 <= t < |cols| => cols[t][i])))
  }

  /** The indicator names and columns collected pair by pair assemble into
      the encoded table. */
  lemma EncodedOfColumns(data: Frame, schema: Schema, names: seq<string>, cols: seq<seq<Cell>>)
    requires WellFormed(data) && PairsPresent(data.columns, Pairs(schema))
    requires |names| == |Pairs(schema)| == |cols| && forall t :: 0 <= t < |cols| ==> |cols[t]| == |data.rows|
    requires forall t :: 0 <= t < |cols| ==> names[t] == IndicatorName(Pairs(schema)[t]) && cols[t] == IndicatorColumn(data, Pairs(schema)[t])
    ensures Encoded(data, schema) == Ok(Assembled(data, KeptPositions(data.columns, schema), names, cols))
  {
    var kept := KeptPositions(data.columns, schema);
    var ps := Pairs(schema);
    assert names == seq(|ps|, t requires 0 <= t < |ps| => IndicatorName(ps[t]));
    var rows := Assembled(data, kept, names, cols).rows;
    forall i | 0 <= i < |data.rows|
      ensures rows[i] == Select(data.rows[i], kept) + seq(|ps|, t requires 0 <= t < |ps| => IndicatorColumn(data, ps[t])[i])
    {
      assert seq(|cols|, t requires 0 <= t < |cols| => cols[t][i])
          == seq(|ps|, t requires 0 <= t < |ps| => IndicatorColumn(data, ps[t])[i]);
    }
    assert rows == seq(|data.rows|, i requires 0 <= i < |data.rows| =>
                    Select(data.rows[i], kept) + seq(|ps|, t requires 0 <= t < |ps| => IndicatorColumn(data, ps[t])[i]));
    assert Select(data.columns, kept) + names == EncodedColumns(data.columns, schema);
  }

  /** The encoded table keeps the row index and the row count; its first
      columns are the non-categorical columns of `data` with their cells,
      and after them come the indicator columns in pair order. */
  lemma EncodedShape(data: Frame, schema: Schema)
    requires WellFormed(data)
    ensures Encoded(data, schema).Ok? <==> PairsPresent(data.columns, Pairs(schema))
    ensures Encoded(data, schema).Err? ==> Encoded(data, schema).error == KeyError
    ensures Encoded(data, schema).Ok? ==>
      var r := Encoded(data, schema).value;
      var kept := KeptPositions(data.columns, schema);
      WellFormed(r) && r.index == data.index && |r.rows| == |data.rows|
      && |r.columns| == |kept| + |Pairs(schema)|
      && (forall j, i :: 0 <= j < |kept| && 0 <= i < |data.rows| ==>
            r.columns[j] == data.columns[kept[j]] && r.rows[i][j] == data.rows[i][kept[j]])
  {
  }

  /** A column survives the encoding exactly when it is not a categorical
      feature. */
  lemma EncodedKeepsNonCategorical(data: Frame, schema: Schema, c: string)
    requires WellFormed(data) && Encoded(data, schema).Ok?
    ensures c in Select(data.columns, KeptPositions(data.columns, schema)) <==> c in data.columns && c !in Names(schema)
  {
    var kept := KeptPositions(data.columns, schema);
    if c in data.columns && c !in Names(schema) {
      var q :| 0 <= q < |data.columns| && data.columns[q] == c;
      KeptMember(data.columns, schema, q);
      var j :| 0 <= j < |kept| && kept[j] == q;
      assert Select(data.columns, kept)[j] == c;
    }
  }

  /** The indicator column of pair `t` is named `feature + '_' + str(label)`
      and holds 1 exactly on the rows whose feature equals the label, and 0
      on the others. */
  lemma EncodedIndicator(data: Frame, schema: Schema, t: nat, i: nat)
    requires WellFormed(data) && Encoded(data, schema).Ok?
    requires t < |Pairs(schema)| && i < |data.rows|
    ensures var r := Encoded(data, schema).value;
      var p := Pairs(schema)[t];
      var j := |KeptPositions(data.columns, schema)| + t;
      var v := data.rows[i][ColumnPos(data.columns, p.0).value];
      j < |r.columns| && r.columns[j] == p.0 + "_" + Show(p.1)
      && (r.rows[i][j] == Int(1) <==> CellEq(v, p.1))
      && (r.rows[i][j] == Int(0) <==> !CellEq(v, p.1))
  {
  }

  /** Python `==` between cells is transitive. */
  lemma CellEqAgree(v: Cell, a: Cell, b: Cell)
    requires CellEq(v, a)
    ensures CellEq(v, b) <==> CellEq(a, b)
  {
  }

  lemma CellEqSymmetric(a: Cell, b: Cell)
    ensures CellEq(a, b) <==> CellEq(b, a)
  {
  }

  /** With labels no two of which are equal, a value equal to one of them
      sets exactly that label's indicator, and a value equal to none sets
      none. */
  lemma OneHot(v: Cell, labels: seq<Cell>)
    requires forall a, b :: 0 <= a < b < |labels| ==> !CellEq(labels[a], labels[b])
    ensures forall p :: 0 <= p < |labels| && CellEq(v, labels[p]) ==>
      forall k :: 0 <= k < |labels| ==> (IndicatorCell(v, labels[k]) == Int(1) <==> k == p)
    ensures (forall p :: 0 <= p < |labels| ==> !CellEq(v, labels[p])) ==>
      forall k :: 0 <= k < |labels| ==> IndicatorCell(v, labels[k]) == Int(0)
  {
    forall p, k | 0 <= p < |labels| && CellEq(v, labels[p]) && 0 <= k < |labels| && k != p
      ensures !CellEq(v, labels[k])
    {
      CellEqAgree(v, labels[p], labels[k]);
      CellEqSymmetric(labels[p], labels[k]);
    }
  }

  /** `model_properties(y_test, modelpredictions, labels)`: None when the two
      sequences differ in length; otherwise the classification report,
      given the label list only when it is non-empty. */
  function ModelProperties<T>(yTest: seq<Cell>, predictions: seq<Cell>, labels: seq<Cell>,
                              report: (seq<Cell>, seq<Cell>, Option<seq<Cell>>) -> T): (r: Option<T>)
    ensures r.None? <==> |yTest| != |predictions|
    ensures r.Some? && labels == [] ==> r.value == report(yTest, predictions, None)
    ensures r.Some? && labels != [] ==> r.value == report(yTest, predictions, Some(labels))
  {
    if |yTest| != |predictions| then None
    else if labels == [] then Some(report(yTest, predictions, None))
    else Some(report(yTest, predictions, Some(labels)))
  }
}
