/** The Anchors explainers: astrapia/explainers/anchors.py and its older twin
    xaibenchmark/explainers/anchors.py. The dataset is handed to the anchor
    library as a numpy table whose categorical columns hold label positions
    (module Coding); predictions decode the table again first. The anchor
    search itself is a foreign call: it is a parameter returning an
    `AnchorExplanation`. */
module Anchors {
  import opened Values
  import opened Text
  import opened Frames
  import opened Utils
  import opened Coding
  import opened Tagging
  import LimeMetrics

  /** The `xb.Dataset` an explainer is built from: the feature names, the
      label lists of the categorical features, the column labels of
      `meta.data` (`data.keys()`), the target column and the class names. */
  datatype Meta = Meta(featureNames: seq<string>, cats: Categories, dataKeys: seq<string>,
                       target: seq<Cell>, targetNames: seq<Cell>)

  /** `(meta.target == meta.target_names[-1]).astype(int)`: the positive
      class is the last class name; no class name raises IndexError. */
  function Labels(target: seq<Cell>, targetNames: seq<Cell>): (r: Result<seq<int>, Error>)
    ensures r.Err? <==> targetNames == []
    ensures r.Err? ==> r.error == IndexError
    ensures r.Ok? ==> |r.value| == |target|
    ensures r.Ok? ==> forall i :: 0 <= i < |target| ==>
              (r.value[i] == 0 || r.value[i] == 1) && (r.value[i] == 1 <==> CellEq(target[i], targetNames[|targetNames| - 1]))
  {
    if targetNames == [] then Err(IndexError)
    else Ok(seq(|target|, i requires 0 <= i < |target| => if CellEq(target[i], targetNames[|targetNames| - 1]) then 1 else 0))
  }

  /** `categorical_names`: each categorical feature's position mapped to its
      stringified labels. */
  function CategoricalNames(names: seq<string>, cats: Categories): (m: map<nat, seq<string>>)
    ensures forall i: nat :: i in m <==> i < |names| && names[i] in cats
    ensures forall i :: i in m ==> m[i] == Strs(cats[names[i]])
  {
    map i: nat | i < |names| && names[i] in cats :: Strs(cats[names[i]])
  }

  /** The dictionary `transform_dataset` returns; `data` is the numpy table
      and `width` its column count. */
  datatype AnchorsDataset = AnchorsDataset(labels: seq<int>, classNames: seq<Cell>, ordinal: seq<nat>, categorical: seq<nat>,
                                           categoricalNames: map<nat, seq<string>>, featureNames: seq<string>,
                                           data: seq<seq<Cell>>, width: nat)

  /** `transform_dataset(data, meta)`: the labels are computed first, then
      the categorical columns of `data.to_numpy()` are coded in feature
      order. */
  function Transformed(data: Frame, meta: Meta): (r: Result<AnchorsDataset, Error>)
    requires WellFormed(data)
    ensures r.Ok? ==> Rectangular(r.value.data, r.value.width) && |r.value.data| == |data.rows|
  {
    match Labels(meta.target, meta.targetNames)
    case Err(e) => Err(e)
    case Ok(labels) =>
      var ps := Positions(meta.featureNames, meta.cats, true);
      match CodedRows(data.rows, |data.columns|, meta.featureNames, meta.cats, ps)
      case Err(e) => Err(e)
      case Ok(rows) =>
        Ok(AnchorsDataset(labels, meta.targetNames, Positions(meta.featureNames, meta.cats, false), ps,
                          CategoricalNames(meta.featureNames, meta.cats), meta.featureNames, rows, |data.columns|))
  }

  method TransformDataset(data: Frame, meta: Meta) returns (r: Result<AnchorsDataset, Error>)
    requires WellFormed(data)
    ensures r == Transformed(data, meta)
  {
    var labels := Labels(meta.target, meta.targetNames);
    if labels.Err? {
      return Err(labels.error);
    }
    var coded := EncodeCategories(data, meta.featureNames, meta.cats);
    if coded.Err? {
      return Err(coded.error);
    }
    r := Ok(AnchorsDataset(labels.value, meta.targetNames, Positions(meta.featureNames, meta.cats, false),
                           Positions(meta.featureNames, meta.cats, true), CategoricalNames(meta.featureNames, meta.cats),
                           meta.featureNames, coded.value, |data.columns|));
  }

  /** What `transform_dataset` promises for a table with one column per
      feature: the ordinal and the categorical positions partition the
      features in increasing order; the coding succeeds exactly when there
      is a class name, the table has a row or no feature is categorical,
      and every categorical cell prints as one of its labels; the table then
      has exactly its categorical columns coded; otherwise the exception is
      IndexError (no class name), ValueError (no row) or KeyError. */
  lemma TransformedSpec(data: Frame, meta: Meta)
    requires WellFormed(data) && |data.columns| == |meta.featureNames|
    ensures var ps := Positions(meta.featureNames, meta.cats, true);
      Transformed(data, meta).Ok? <==>
        meta.targetNames != [] && (data.rows != [] || ps == [])
        && forall j, i :: 0 <= j < |ps| && 0 <= i < |data.rows| ==>
             Show(data.rows[i][ps[j]]) in Strs(meta.cats[meta.featureNames[ps[j]]])
    ensures Transformed(data, meta).Err? ==>
      Transformed(data, meta).error == (if meta.targetNames == [] then IndexError
                                        else if data.rows == [] then ValueError else KeyError)
    ensures Transformed(data, meta).Ok? ==>
      var ds := Transformed(data, meta).value;
      (forall i :: 0 <= i < |meta.featureNames| ==>
         (i in ds.categorical <==> meta.featureNames[i] in meta.cats) && (i in ds.ordinal <==> i !in ds.categorical))
      && (forall a, b :: 0 <= a < b < |ds.categorical| ==> ds.categorical[a] < ds.categorical[b])
      && (forall a, b :: 0 <= a < b < |ds.ordinal| ==> ds.ordinal[a] < ds.ordinal[b])
      && CodedFrom(data.rows, ds.data, |data.columns|, meta.featureNames, meta.cats, ds.categorical)
  {
    var names, cats := meta.featureNames, meta.cats;
    var ps := Positions(names, cats, true);
    CodedRowsCells(data.rows, |data.columns|, names, cats, ps);
    if meta.targetNames != [] && CodedRows(data.rows, |data.columns|, names, cats, ps).Err? {
      CodedRowsError(data.rows, |data.columns|, names, cats, ps);
    }
    if Transformed(data, meta).Ok? {
      TransformedPositions(data, meta);
    }
  }

  /** The positions a successful transformation records: the categorical
      features and the others, each in increasing order, and the coded
      table. */
  lemma TransformedPositions(data: Frame, meta: Meta)
    requires WellFormed(data) && |data.columns| == |meta.featureNames| && Transformed(data, meta).Ok?
    ensures var ds := Transformed(data, meta).value;
      (forall i :: 0 <= i < |meta.featureNames| ==>
         (i in ds.categorical <==> meta.featureNames[i] in meta.cats) && (i in ds.ordinal <==> i !in ds.categorical))
      && (forall a, b :: 0 <= a < b < |ds.categorical| ==> ds.categorical[a] < ds.categorical[b])
      && (forall a, b :: 0 <= a < b < |ds.ordinal| ==> ds.ordinal[a] < ds.ordinal[b])
      && CodedFrom(data.rows, ds.data, |data.columns|, meta.featureNames, meta.cats, ds.categorical)
  {
    var names, cats := meta.featureNames, meta.cats;
    CodedRowsCells(data.rows, |data.columns|, names, cats, Positions(names, cats, true));
    forall i | 0 <= i < |names| ensures i in Positions(names, cats, true) <==> i !in Positions(names, cats, false) {
      PositionsPartition(names, cats, i);
    }
  }

  /** With every position inside the table, coding fails with ValueError on
      an empty table and with KeyError otherwise. */
  lemma {:induction false} CodedRowsError(rows: seq<seq<Cell>>, width: nat, names: seq<string>, cats: Categories, ps: seq<nat>)
    requires Rectangular(rows, width)
    requires forall j :: 0 <= j < |ps| ==> ps[j] < |names| && names[ps[j]] in cats && ps[j] < width
    requires CodedRows(rows, width, names, cats, ps).Err?
    ensures CodedRows(rows, width, names, cats, ps).error == if rows == [] then ValueError else KeyError
  {
    var init := ps[..|ps| - 1];
    if CodedRows(rows, width, names, cats, init).Err? {
      CodedRowsError(rows, width, names, cats, init);
    }
  }

  /** `inverse_transform_dataset({'data': rows}, meta)`: the array becomes a
      frame labelled by the feature names (ValueError when the widths
      differ, with a fresh `RangeIndex`), and the columns whose position in
      `data.keys()` is categorical are decoded by indexing the label list
      with the cell itself. */
  function Inverse(rows: seq<seq<Cell>>, width: nat, meta: Meta): (r: Result<Frame, Error>)
    requires Rectangular(rows, width)
    ensures width != |meta.featureNames| ==> r == Err(ValueError)
    ensures r.Ok? ==> WellFormed(r.value) && r.value.columns == meta.featureNames && r.value.index == RangeIndex(|rows|)
  {
    if width != |meta.featureNames| then Err(ValueError)
    else
      match DecodedRows(rows, meta.featureNames, meta.cats, Positions(meta.dataKeys, meta.cats, true), AsIs)
      case Err(e) => Err(e)
      case Ok(decoded) => Ok(Frame(meta.featureNames, RangeIndex(|rows|), decoded))
  }

  method InverseTransformDataset(rows: seq<seq<Cell>>, width: nat, meta: Meta) returns (r: Result<Frame, Error>)
    requires Rectangular(rows, width)
    ensures r == Inverse(rows, width, meta)
  {
    if width != |meta.featureNames| {
      return Err(ValueError);
    }
    var decoded := DecodeCategories(rows, meta.featureNames, meta.cats, Positions(meta.dataKeys, meta.cats, true), AsIs);
    if decoded.Err? {
      return Err(decoded.error);
    }
    r := Ok(Frame(meta.featureNames, RangeIndex(|rows|), decoded.value));
  }

  /** The round trip of the explainer's data: when `data.keys()` and the
      feature names agree and are distinct, the labels of each feature
      print differently, and every categorical cell is one of its labels,
      decoding the transformed table gives the table back under a
      `RangeIndex`. */
  lemma InverseOfTransformed(data: Frame, meta: Meta)
    requires WellFormed(data) && data.columns == meta.featureNames && meta.dataKeys == meta.featureNames
    requires Distinct(meta.featureNames) && meta.targetNames != []
    requires forall p :: 0 <= p < |meta.featureNames| && meta.featureNames[p] in meta.cats ==>
               Distinct(Strs(meta.cats[meta.featureNames[p]]))
               && forall i :: 0 <= i < |data.rows| ==> data.rows[i][p] in meta.cats[meta.featureNames[p]]
    requires data.rows != [] || forall p :: 0 <= p < |meta.featureNames| ==> meta.featureNames[p] !in meta.cats
    ensures Transformed(data, meta).Ok?
    ensures Inverse(Transformed(data, meta).value.data, |data.columns|, meta)
            == Ok(Frame(meta.featureNames, RangeIndex(|data.rows|), data.rows))
  {
    CodingRoundTrip(data.rows, meta.featureNames, meta.cats, AsIs);
  }

  /** `transformed_predict` of astrapia: the model's class-1 probability of
      each decoded row (`model` stands for `predict_fn(...)[:, 1]`),
      compared with 0.5. */
  function Predictor(rows: seq<seq<Cell>>, width: nat, meta: Meta, model: Frame -> seq<real>): (r: Result<seq<bool>, Error>)
    requires Rectangular(rows, width)
    ensures r.Ok? <==> Inverse(rows, width, meta).Ok?
    ensures r.Ok? ==> var probs := model(Inverse(rows, width, meta).value);
              |r.value| == |probs| && forall k :: 0 <= k < |probs| ==> (r.value[k] <==> probs[k] > 0.5)
  {
    match Inverse(rows, width, meta)
    case Err(e) => Err(e)
    case Ok(df) => Ok(LimeMetrics.Above(model(df)))
  }

  /** `transformed_predict` of xaibenchmark: the model's labels of the
      decoded rows, unthresholded. */
  function LegacyPredictor(rows: seq<seq<Cell>>, width: nat, meta: Meta, model: Frame -> seq<Cell>): (r: Result<seq<Cell>, Error>)
    requires Rectangular(rows, width)
    ensures r.Ok? <==> Inverse(rows, width, meta).Ok?
    ensures r.Ok? ==> r.value == model(Inverse(rows, width, meta).value)
  {
    match Inverse(rows, width, meta)
    case Err(e) => Err(e)
    case Ok(df) => Ok(model(df))
  }

  /** A row fits an anchor when it equals the explained instance on every
      anchor feature. */
  predicate Fits(row: seq<Cell>, instance: seq<Cell>, features: seq<nat>)
    requires forall j :: 0 <= j < |features| ==> features[j] < |row| && features[j] < |instance|
  {
    forall j :: 0 <= j < |features| ==> CellEq(row[features[j]], instance[features[j]])
  }

  /** The fitting rows among the first `n`, in increasing order. */
  function Matching(dataset: seq<seq<Cell>>, width: nat, instance: seq<Cell>, features: seq<nat>, n: nat): (r: seq<nat>)
    requires Rectangular(dataset, width) && n <= |dataset|
    requires forall j :: 0 <= j < |features| ==> features[j] < width && features[j] < |instance|
    ensures forall a, b :: 0 <= a < b < |r| ==> r[a] < r[b]
    ensures forall k :: 0 <= k < |r| ==> r[k] < n
    ensures forall i: nat :: i in r <==> i < n && Fits(dataset[i], instance, features)
  {
    if n == 0 then []
    else
      var rest := Matching(dataset, width, instance, features, n - 1);
      if Fits(dataset[n - 1], instance, features) then rest + [n - 1] else rest
  }

  /** `get_fit_anchor(dataset)`: `np.where(np.all(dataset[:, f] ==
      instance[f], axis=1))[0]` — the ascending positions of the rows that
      fit; an anchor feature outside the table or the instance raises
      IndexError; the empty anchor fits every row. */
  function FitAnchor(dataset: seq<seq<Cell>>, width: nat, instance: seq<Cell>, features: seq<nat>): (r: Result<seq<nat>, Error>)
    requires Rectangular(dataset, width)
    ensures r.Err? <==> exists j :: 0 <= j < |features| && (features[j] >= width || features[j] >= |instance|)
    ensures r.Err? ==> r.error == IndexError
    ensures r.Ok? ==> (forall a, b :: 0 <= a < b < |r.value| ==> r.value[a] < r.value[b])
                      && forall i: nat :: i in r.value <==> i < |dataset| && Fits(dataset[i], instance, features)
  {
    if exists j :: 0 <= j < |features| && (features[j] >= width || features[j] >= |instance|) then Err(IndexError)
    else Ok(Matching(dataset, width, instance, features, |dataset|))
  }

  /** Increasing positions below `n` are at most `n` many. */
  lemma {:induction false} IncreasingBound(xs: seq<nat>, n: nat)
    requires forall a, b :: 0 <= a < b < |xs| ==> xs[a] < xs[b]
    requires forall k :: 0 <= k < |xs| ==> xs[k] < n
    ensures |xs| <= n
  {
    if xs != [] {
      var init := xs[..|xs| - 1];
      IncreasingBound(init, xs[|xs| - 1]);
    }
  }

  lemma EmptyAnchorFitsAll(dataset: seq<seq<Cell>>, width: nat, instance: seq<Cell>)
    requires Rectangular(dataset, width)
    ensures FitAnchor(dataset, width, instance, []) == Ok(seq(|dataset|, i requires 0 <= i < |dataset| => i))
  {
    var r := FitAnchor(dataset, width, instance, []).value;
    var all := seq(|dataset|, i requires 0 <= i < |dataset| => i);
    IncreasingBound(r, |dataset|);
    forall k | 0 <= k < |r| ensures r[k] == k {
      IncreasingFrom(r, |dataset|, k);
    }
    if |dataset| > 0 {
      assert |dataset| - 1 in r;
    }
    assert r == all;
  }

  /** An increasing sequence holding every position below `n` and nothing
      else is `0, 1, ..., n - 1`. */
  lemma {:induction false} IncreasingFrom(r: seq<nat>, n: nat, k: nat)
    requires forall a, b :: 0 <= a < b < |r| ==> r[a] < r[b]
    requires forall i: nat :: i in r <==> i < n
    requires k < |r|
    ensures r[k] == k
  {
    if k > 0 {
      IncreasingFrom(r, n, k - 1);
    }
    assert r[k] in r;
    assert k in r;
    var m :| 0 <= m < |r| && r[m] == k;
    assert m <= k;
    assert m == k;
  }

  /** An explanation as the anchor library returns it: the anchor's feature
      positions, the prediction it explains (a boolean in astrapia, a
      model label in xaibenchmark), its coverage and its precision. */
  datatype AnchorExplanation<L> = AnchorExplanation(features: seq<nat>, prediction: L, coverage: real, precision: real)

  /** The attributes `explain_instance` sets: the explanation and the coded
      instance it explains. */
  datatype Explained<L> = Explained(explanation: AnchorExplanation<L>, instance: seq<Cell>)

  /** `coverage` and `accuracy_global` (xaibenchmark: `precision`): the
      explanation's own figure once there is one, NaN before. */
  function ExplanationFigure<L>(st: Option<Explained<L>>, figure: AnchorExplanation<L> -> real): (r: PyVal)
    ensures r == NaN <==> st.None?
    ensures st.Some? ==> r == Num(figure(st.value.explanation))
  {
    if st.None? then NaN else Num(figure(st.value.explanation))
  }

  /** `coverage_absolute`: how many rows of the explainer's table fit the
      anchor; before any explanation `self.explanation` is missing
      (AttributeError). */
  function CoverageAbsolute<L>(st: Option<Explained<L>>, ds: AnchorsDataset): (r: Result<PyVal, Error>)
    requires Rectangular(ds.data, ds.width)
    ensures st.None? ==> r == Err(AttributeError)
    ensures st.Some? ==> (r.Ok? <==> FitAnchor(ds.data, ds.width, st.value.instance, st.value.explanation.features).Ok?)
    ensures r.Ok? ==> r.value.Num? && 0.0 <= r.value.r <= |ds.data| as real
    ensures r.Ok? ==>
      r.value == Num(|set i: nat | i < |ds.data| && Fits(ds.data[i], st.value.instance, st.value.explanation.features)| as real)
  {
    if st.None? then Err(AttributeError)
    else
      match FitAnchor(ds.data, ds.width, st.value.instance, st.value.explanation.features)
      case Err(e) => Err(e)
      case Ok(fit) =>
        IncreasingBound(fit, |ds.data|);
        IncreasingCard(fit, (set i: nat | i < |ds.data| && Fits(ds.data[i], st.value.instance, st.value.explanation.features)));
        Ok(Num(|fit| as real))
  }

  /** An increasing sequence holds as many positions as the set of them. */
  lemma {:induction false} IncreasingCard(xs: seq<nat>, s: set<nat>)
    requires forall a, b :: 0 <= a < b < |xs| ==> xs[a] < xs[b]
    requires forall i: nat :: i in s <==> i in xs
    ensures |s| == |xs|
  {
    if xs != [] {
      var init := xs[..|xs| - 1];
      var last := xs[|xs| - 1];
      forall i: nat ensures i in s - {last} <==> i in init {
        if i in init {
          var k :| 0 <= k < |init| && init[k] == i;
          assert xs[k] < last;
        }
        if i in xs && i != last {
          var k :| 0 <= k < |xs| && xs[k] == i;
          assert k < |xs| - 1 && init[k] == i;
        }
      }
      IncreasingCard(init, s - {last});
    }
  }

  /** `values[positions]` with numpy fancy indexing: a position past the end
      raises IndexError. */
  function Pick<T>(values: seq<T>, positions: seq<nat>): (r: Result<seq<T>, Error>)
    ensures r.Err? <==> exists k :: 0 <= k < |positions| && positions[k] >= |values|
    ensures r.Err? ==> r.error == IndexError
    ensures r.Ok? ==> |r.value| == |positions| && forall k :: 0 <= k < |positions| ==> r.value[k] == values[positions[k]]
  {
    if exists k :: 0 <= k < |positions| && positions[k] >= |values| then Err(IndexError)
    else Ok(seq(|positions|, k requires 0 <= k < |positions| => values[positions[k]]))
  }

  /** `balance_explanation` of astrapia: `int(prediction)` of the boolean
      the anchor explains; AttributeError before any explanation. */
  function BalanceExplanation(st: Option<Explained<bool>>): (r: Result<PyVal, Error>)
    ensures r.Err? <==> st.None?
    ensures r.Err? ==> r.error == AttributeError
    ensures r.Ok? ==> (r.value == Num(1.0) <==> st.value.explanation.prediction)
    ensures r.Ok? ==> r.value == Num(0.0) || r.value == Num(1.0)
  {
    if st.None? then Err(AttributeError)
    else Ok(Num(if st.value.explanation.prediction then 1.0 else 0.0))
  }

  /** `balance_explanation` of xaibenchmark: 0 when the explained
      prediction equals the first class name, 1 otherwise. */
  function LegacyBalanceExplanation(st: Option<Explained<Cell>>, targetNames: seq<Cell>): (r: Result<PyVal, Error>)
    ensures st.None? ==> r == Err(AttributeError)
    ensures st.Some? && targetNames == [] ==> r == Err(IndexError)
    ensures r.Ok? ==> (r.value == Num(0.0) <==> CellEq(st.value.explanation.prediction, targetNames[0]))
    ensures r.Ok? ==> r.value == Num(0.0) || r.value == Num(1.0)
  {
    if st.None? then Err(AttributeError)
    else if targetNames == [] then Err(IndexError)
    else Ok(Num(if CellEq(st.value.explanation.prediction, targetNames[0]) then 0.0 else 1.0))
  }

  /** The mean of the fitting rows' flags (`np.mean(flags[fit])`): NaN for no
      fitting row, a value in [0, 1] otherwise, 1 when every fitting row is
      flagged. */
  function FitShare(flags: seq<bool>, fit: seq<nat>): (r: Result<PyVal, Error>)
    ensures r.Err? <==> exists k :: 0 <= k < |fit| && fit[k] >= |flags|
    ensures r.Err? ==> r.error == IndexError
    ensures r.Ok? ==> (r.value == NaN <==> fit == [])
    ensures r.Ok? && r.value != NaN ==> r.value.Num? && 0.0 <= r.value.r <= 1.0
    ensures r.Ok? && r.value != NaN && (forall k :: 0 <= k < |fit| ==> flags[fit[k]]) ==> r.value == Num(1.0)
    ensures r.Ok? && r.value != NaN && (forall k :: 0 <= k < |fit| ==> !flags[fit[k]]) ==> r.value == Num(0.0)
  {
    match Pick(flags, fit)
    case Err(e) => Err(e)
    case Ok(selected) => Ok(LimeMetrics.Share(selected))
  }

  /** `balance_model` of astrapia: the share of fitting rows the model
      predicts positive; None (NaN through the metric wrapper) before any
      explanation. */
  function BalanceModel(st: Option<Explained<bool>>, ds: AnchorsDataset, meta: Meta, model: Frame -> seq<real>): (r: Result<PyVal, Error>)
    requires Rectangular(ds.data, ds.width)
    ensures st.None? ==> r == Ok(NoneVal) && MetricDecorator(_ => r).call([]) == Ok(NaN)
    ensures st.Some? && r.Ok? ==>
      Predictor(ds.data, ds.width, meta, model).Ok?
      && FitAnchor(ds.data, ds.width, st.value.instance, st.value.explanation.features).Ok?
      && r == FitShare(Predictor(ds.data, ds.width, meta, model).value,
                       FitAnchor(ds.data, ds.width, st.value.instance, st.value.explanation.features).value)
  {
    if st.None? then Ok(NoneVal)
    else
      match Predictor(ds.data, ds.width, meta, model)
      case Err(e) => Err(e)
      case Ok(pred) =>
        match FitAnchor(ds.data, ds.width, st.value.instance, st.value.explanation.features)
        case Err(e) => Err(e)
        case Ok(fit) => FitShare(pred, fit)
  }

  /** `balance_model` of xaibenchmark: the share of fitting rows whose
      model label equals the second class name. */
  function LegacyBalanceModel(st: Option<Explained<Cell>>, ds: AnchorsDataset, meta: Meta, model: Frame -> seq<Cell>)
    : (r: Result<PyVal, Error>)
    requires Rectangular(ds.data, ds.width)
    ensures st.None? ==> r == Ok(NoneVal) && MetricDecorator(_ => r).call([]) == Ok(NaN)
    ensures st.Some? && |meta.targetNames| < 2 ==> r.Err?
    ensures st.Some? && r.Ok? ==>
      LegacyPredictor(ds.data, ds.width, meta, model).Ok?
      && FitAnchor(ds.data, ds.width, st.value.instance, st.value.explanation.features).Ok?
      && r == FitShare(Matches(LegacyPredictor(ds.data, ds.width, meta, model).value, meta.targetNames[1]),
                       FitAnchor(ds.data, ds.width, st.value.instance, st.value.explanation.features).value)
  {
    if st.None? then Ok(NoneVal)
    else
      match LegacyPredictor(ds.data, ds.width, meta, model)
      case Err(e) => Err(e)
      case Ok(pred) =>
        match FitAnchor(ds.data, ds.width, st.value.instance, st.value.explanation.features)
        case Err(e) => Err(e)
        case Ok(fit) =>
          match Pick(pred, fit)
          case Err(e) => Err(e)
          case Ok(selected) =>
            if |meta.targetNames| < 2 then Err(IndexError)
            else
              PickMatches(pred, fit, meta.targetNames[1]);
              Ok(LimeMetrics.Share(Matches(selected, meta.targetNames[1])))
  }

  /** Comparing then picking is picking then comparing. */
  lemma PickMatches(values: seq<Cell>, positions: seq<nat>, wanted: Cell)
    requires Pick(values, positions).Ok?
    ensures Pick(Matches(values, wanted), positions) == Ok(Matches(Pick(values, positions).value, wanted))
  {
    var picked := Pick(Matches(values, wanted), positions);
    assert picked.Ok?;
    assert picked.value == Matches(Pick(values, positions).value, wanted);
  }

  /** `values == wanted`, elementwise. */
  function Matches(values: seq<Cell>, wanted: Cell): (flags: seq<bool>)
    ensures |flags| == |values| && forall k :: 0 <= k < |values| ==> (flags[k] <==> CellEq(values[k], wanted))
  {
    seq(|values|, k requires 0 <= k < |values| => CellEq(values[k], wanted))
  }

  /** `balance_data`: the share of fitting rows whose label is 1. */
  function BalanceData<L>(st: Option<Explained<L>>, ds: AnchorsDataset): (r: Result<PyVal, Error>)
    requires Rectangular(ds.data, ds.width)
    ensures st.None? ==> r == Ok(NoneVal) && MetricDecorator(_ => r).call([]) == Ok(NaN)
    ensures st.Some? && r.Ok? ==>
      FitAnchor(ds.data, ds.width, st.value.instance, st.value.explanation.features).Ok?
      && r == FitShare(Positive(ds.labels), FitAnchor(ds.data, ds.width, st.value.instance, st.value.explanation.features).value)
  {
    if st.None? then Ok(NoneVal)
    else
      match FitAnchor(ds.data, ds.width, st.value.instance, st.value.explanation.features)
      case Err(e) => Err(e)
      case Ok(fit) => FitShare(Positive(ds.labels), fit)
  }

  /** `labels == 1`, elementwise. */
  function Positive(labels: seq<int>): (flags: seq<bool>)
    ensures |flags| == |labels| && forall k :: 0 <= k < |labels| ==> (flags[k] <==> labels[k] == 1)
  {
    seq(|labels|, k requires 0 <= k < |labels| => labels[k] == 1)
  }

  /** A cell as a number, if it is one. */
  function NumberOf(c: Cell): (r: Option<real>)
    ensures r.None? <==> c.Text?
  {
    match c
    case Int(i) => Some(i as real)
    case Real(x) => Some(x)
    case Text(_) => None
  }

  /** `np.amax(data, axis=0)[q]` on the object table: the largest number of
      column `q` (its first `n` rows); a column of strings has a string
      maximum (None here); a column mixing strings and numbers raises
      TypeError when they are compared. */
  function ColumnMax(rows: seq<seq<Cell>>, width: nat, q: nat, n: nat): (r: Result<Option<real>, Error>)
    requires Rectangular(rows, width) && q < width && 0 < n <= |rows|
    ensures r.Err? <==> (exists i :: 0 <= i < n && rows[i][q].Text?) && (exists i :: 0 <= i < n && !rows[i][q].Text?)
    ensures r.Err? ==> r.error == TypeError
    ensures r.Ok? && r.value.None? ==> forall i :: 0 <= i < n ==> rows[i][q].Text?
    ensures r.Ok? && r.value.Some? ==>
              (forall i :: 0 <= i < n ==> NumberOf(rows[i][q]).Some? && NumberOf(rows[i][q]).value <= r.value.value)
              && exists i :: 0 <= i < n && NumberOf(rows[i][q]) == r.value
  {
    var here := NumberOf(rows[n - 1][q]);
    if n == 1 then Ok(here)
    else
      match ColumnMax(rows, width, q, n - 1)
      case Err(e) => Err(e)
      case Ok(m) =>
        if m.None? != here.None? then Err(TypeError)
        else if m.None? then Ok(None)
        else Ok(Some(if here.value > m.value then here.value else m.value))
  }

  /** `np.amax(data, axis=0)`: every column's maximum; an empty table has
      none (ValueError). */
  function ColumnMaxima(rows: seq<seq<Cell>>, width: nat): (r: Result<seq<Option<real>>, Error>)
    requires Rectangular(rows, width)
    ensures rows == [] ==> r == Err(ValueError)
    ensures rows != [] && r.Err? ==> exists q :: 0 <= q < width && ColumnMax(rows, width, q, |rows|).Err?
    ensures rows != [] && (exists q :: 0 <= q < width && ColumnMax(rows, width, q, |rows|).Err?) ==> r.Err?
    ensures r.Ok? ==> |r.value| == width && forall q :: 0 <= q < width ==> ColumnMax(rows, width, q, |rows|) == Ok(r.value[q])
  {
    if rows == [] then Err(ValueError)
    else if exists q :: 0 <= q < width && ColumnMax(rows, width, q, |rows|).Err? then Err(TypeError)
    else Ok(seq(width, q requires 0 <= q < width => ColumnMax(rows, width, q, |rows|).value))
  }

  function Product(xs: seq<real>): real
  {
    if xs == [] then 1.0 else Product(xs[..|xs| - 1]) * xs[|xs| - 1]
  }

  lemma ScaleDown(p: real, x: real)
    requires 0.0 < p <= 1.0 && 0.0 < x <= 1.0
    ensures 0.0 < p * x <= 1.0
  {
    assert p * (1.0 - x) >= 0.0;
  }

  /** A product of factors in (0, 1] lies in (0, 1]. */
  lemma {:induction false} ProductBounds(xs: seq<real>)
    requires forall k :: 0 <= k < |xs| ==> 0.0 < xs[k] <= 1.0
    ensures 0.0 < Product(xs) <= 1.0
  {
    if xs != [] {
      var init := xs[..|xs| - 1];
      ProductBounds(init);
      ScaleDown(Product(init), xs[|xs| - 1]);
    }
  }

  /** `1 / (maxima[features] + 1)`: one factor per anchor feature; each
      lies in (0, 1] when its maximum is non-negative. */
  function AreaFactors(f: seq<nat>, maxima: seq<Option<real>>): (r: seq<real>)
    requires forall j :: 0 <= j < |f| ==> f[j] < |maxima| && maxima[f[j]].Some? && maxima[f[j]].value != -1.0
    ensures |r| == |f|
    ensures (forall j :: 0 <= j < |f| ==> maxima[f[j]].value >= 0.0) ==> forall j :: 0 <= j < |r| ==> 0.0 < r[j] <= 1.0
  {
    seq(|f|, j requires 0 <= j < |f| => 1.0 / (maxima[f[j]].value + 1.0))
  }

  /** `area_relative` (xaibenchmark: `relative_area`):
      `np.prod(1 / (np.amax(data, axis=0)[features] + 1))`, NaN before any
      explanation. An anchor feature past the table raises IndexError, a
      string maximum TypeError (`+ 1`), and a maximum of -1
      ZeroDivisionError (`1 / 0` on the object table). With non-negative
      maxima, as the coded categorical columns have, the area lies in
      (0, 1]. */
  function AreaRelative<L>(st: Option<Explained<L>>, ds: AnchorsDataset): (r: Result<PyVal, Error>)
    requires Rectangular(ds.data, ds.width)
    ensures st.None? ==> r == Ok(NaN)
    ensures st.Some? && ds.data == [] ==> r == Err(ValueError)
    ensures st.Some? && r.Ok? ==>
      ColumnMaxima(ds.data, ds.width).Ok?
      && var maxima := ColumnMaxima(ds.data, ds.width).value;
         var f := st.value.explanation.features;
         (forall j :: 0 <= j < |f| ==> f[j] < |maxima| && maxima[f[j]].Some? && maxima[f[j]].value != -1.0)
         && r.value == Num(Product(AreaFactors(f, maxima)))
         && ((forall j :: 0 <= j < |f| ==> maxima[f[j]].value >= 0.0) ==> 0.0 < r.value.r <= 1.0)
    ensures st.Some? && r.Ok? && st.value.explanation.features == [] ==> r == Ok(Num(1.0))
  {
    if st.None? then Ok(NaN)
    else
      match ColumnMaxima(ds.data, ds.width)
      case Err(e) => Err(e)
      case Ok(maxima) => AreaOf(st.value.explanation.features, maxima)
  }

  /** The area once the maxima are known: the lookups and `+ 1` fail as
      on the object table, otherwise the product of the factors. */
  function AreaOf(f: seq<nat>, maxima: seq<Option<real>>): (r: Result<PyVal, Error>)
    ensures r.Ok? <==> forall j :: 0 <= j < |f| ==> f[j] < |maxima| && maxima[f[j]].Some? && maxima[f[j]].value != -1.0
    ensures r.Ok? ==> r.value.Num?
    ensures r.Ok? ==> r.value == Num(Product(AreaFactors(f, maxima)))
    ensures r.Ok? && (forall j :: 0 <= j < |f| ==> maxima[f[j]].value >= 0.0) ==> 0.0 < r.value.r <= 1.0
    ensures f == [] ==> r == Ok(Num(1.0))
  {
    if exists j :: 0 <= j < |f| && f[j] >= |maxima| then Err(IndexError)
    else if exists j :: 0 <= j < |f| && maxima[f[j]].None? then Err(TypeError)
    else if exists j :: 0 <= j < |f| && maxima[f[j]].value == -1.0 then Err(ZeroDivisionError)
    else
      var factors := AreaFactors(f, maxima);
      if forall j :: 0 <= j < |f| ==> maxima[f[j]].value >= 0.0 then
        ProductBounds(factors);
        Ok(Num(Product(factors)))
      else Ok(Num(Product(factors)))
  }

  /** `dataset[fit]`: the rows at the given positions. */
  function RowsAt(dataset: seq<seq<Cell>>, width: nat, fit: seq<nat>): (rows: seq<seq<Cell>>)
    requires Rectangular(dataset, width) && forall k :: 0 <= k < |fit| ==> fit[k] < |dataset|
    ensures |rows| == |fit| && Rectangular(rows, width) && forall k :: 0 <= k < |fit| ==> rows[k] == dataset[fit[k]]
  {
    seq(|fit|, k requires 0 <= k < |fit| => dataset[fit[k]])
  }

  function CountTrue(flags: seq<bool>): (n: nat)
    ensures n <= |flags|
  {
    if flags == [] then 0 else CountTrue(flags[..|flags| - 1]) + if flags[|flags| - 1] then 1 else 0
  }

  lemma {:induction false} CountTrueAll(flags: seq<bool>)
    requires forall k :: 0 <= k < |flags| ==> flags[k]
    ensures CountTrue(flags) == |flags|
  {
    if flags != [] {
      CountTrueAll(flags[..|flags| - 1]);
    }
  }

  /** `np.count_nonzero(agree) / len(relevant)`: in [0, 1] when the model
      answers once per relevant row, and 1 when every answer agrees. */
  function AgreementRatio(agree: seq<bool>, relevant: nat): (r: PyVal)
    requires relevant > 0
    ensures r.Num? && 0.0 <= r.r
    ensures |agree| == relevant ==> r.r <= 1.0
    ensures |agree| == relevant && (forall k :: 0 <= k < |agree| ==> agree[k]) ==> r == Num(1.0)
  {
    if forall k :: 0 <= k < |agree| ==> agree[k] then
      CountTrueAll(agree);
      Num(CountTrue(agree) as real / relevant as real)
    else Num(CountTrue(agree) as real / relevant as real)
  }

  /** `accuracy` of astrapia: among the fitting rows, the share the model
      predicts as the explanation does; None (NaN through the metric
      wrapper) before any explanation or when no row fits. */
  function Accuracy(st: Option<Explained<bool>>, ds: AnchorsDataset, meta: Meta, model: Frame -> seq<real>): (r: Result<PyVal, Error>)
    requires Rectangular(ds.data, ds.width)
    ensures st.None? ==> r == Ok(NoneVal) && MetricDecorator(_ => r).call([]) == Ok(NaN)
    ensures st.Some? && FitAnchor(ds.data, ds.width, st.value.instance, st.value.explanation.features) == Ok([]) ==> r == Ok(NoneVal)
    ensures st.Some? && r.Ok? && r.value != NoneVal ==>
      FitAnchor(ds.data, ds.width, st.value.instance, st.value.explanation.features).Ok?
      && var fit := FitAnchor(ds.data, ds.width, st.value.instance, st.value.explanation.features).value;
         fit != [] && Predictor(RowsAt(ds.data, ds.width, fit), ds.width, meta, model).Ok?
         && var pred := Predictor(RowsAt(ds.data, ds.width, fit), ds.width, meta, model).value;
            r.value == AgreementRatio(AgreeWith(pred, st.value.explanation.prediction), |fit|)
  {
    if st.None? then Ok(NoneVal)
    else
      match FitAnchor(ds.data, ds.width, st.value.instance, st.value.explanation.features)
      case Err(e) => Err(e)
      case Ok(fit) =>
        var relevant := RowsAt(ds.data, ds.width, fit);
        if |relevant| == 0 then Ok(NoneVal)
        else
          match Predictor(relevant, ds.width, meta, model)
          case Err(e) => Err(e)
          case Ok(pred) => Ok(AgreementRatio(AgreeWith(pred, st.value.explanation.prediction), |relevant|))
  }

  /** `ml_pred == explanation_label`, elementwise. */
  function AgreeWith(pred: seq<bool>, wanted: bool): (flags: seq<bool>)
    ensures |flags| == |pred| && forall k :: 0 <= k < |pred| ==> (flags[k] <==> pred[k] == wanted)
  {
    seq(|pred|, k requires 0 <= k < |pred| => pred[k] == wanted)
  }

  /** `accuracy` of xaibenchmark: the same share with the model's labels
      compared to the explained label. */
  function LegacyAccuracy(st: Option<Explained<Cell>>, ds: AnchorsDataset, meta: Meta, model: Frame -> seq<Cell>)
    : (r: Result<PyVal, Error>)
    requires Rectangular(ds.data, ds.width)
    ensures st.None? ==> r == Ok(NoneVal) && MetricDecorator(_ => r).call([]) == Ok(NaN)
    ensures st.Some? && FitAnchor(ds.data, ds.width, st.value.instance, st.value.explanation.features) == Ok([]) ==> r == Ok(NoneVal)
    ensures st.Some? && r.Ok? && r.value != NoneVal ==>
      FitAnchor(ds.data, ds.width, st.value.instance, st.value.explanation.features).Ok?
      && var fit := FitAnchor(ds.data, ds.width, st.value.instance, st.value.explanation.features).value;
         fit != [] && LegacyPredictor(RowsAt(ds.data, ds.width, fit), ds.width, meta, model).Ok?
         && var pred := LegacyPredictor(RowsAt(ds.data, ds.width, fit), ds.width, meta, model).value;
            r.value == AgreementRatio(Matches(pred, st.value.explanation.prediction), |fit|)
  {
    if st.None? then Ok(NoneVal)
    else
      match FitAnchor(ds.data, ds.width, st.value.instance, st.value.explanation.features)
      case Err(e) => Err(e)
      case Ok(fit) =>
        var relevant := RowsAt(ds.data, ds.width, fit);
        if |relevant| == 0 then Ok(NoneVal)
        else
          match LegacyPredictor(relevant, ds.width, meta, model)
          case Err(e) => Err(e)
          case Ok(pred) => Ok(AgreementRatio(Matches(pred, st.value.explanation.prediction), |relevant|))
  }

  /** `get_explained_instance`: the coded instance; AttributeError before
      any explanation. */
  function ExplainedInstance<L>(st: Option<Explained<L>>): (r: Result<PyVal, Error>)
    ensures r.Err? <==> st.None?
    ensures r.Err? ==> r.error == AttributeError
    ensures r.Ok? ==> r.value == Row(st.value.instance)
  {
    if st.None? then Err(AttributeError) else Ok(Row(st.value.instance))
  }

  /** `get_neighborhood_instances` of xaibenchmark: `[]` before any
      explanation; afterwards it reads `self.instance_set`, which nothing
      in the class sets (AttributeError). */
  function LegacyNeighborhoodInstances(st: Option<Explained<Cell>>): (r: Result<PyVal, Error>)
    ensures st.None? <==> r == Ok(Items([]))
    ensures st.Some? ==> r == Err(AttributeError)
  {
    if st.None? then Ok(Items([])) else Err(AttributeError)
  }

  /** An Anchors explainer: the dataset transformed once at construction,
      and the attributes `explain_instance` sets. `L` is the type of the
      explained prediction (a boolean in astrapia, a model label in
      xaibenchmark). */
  class AnchorsExplainer<L> {
    const meta: Meta
    const dataset: AnchorsDataset
    var explained: Option<Explained<L>>

    constructor (meta: Meta, dataset: AnchorsDataset)
      ensures this.meta == meta && this.dataset == dataset && explained.None?
    {
      this.meta := meta;
      this.dataset := dataset;
      explained := None;
    }

    /** `explain_instance(instance)`: the instance frame is transformed like
        the dataset, its first row is handed to the anchor search, and on
        success the explanation and that row are stored. Any exception
        leaves the attributes as they were. */
    method ExplainInstance(instance: Frame, anchor: seq<Cell> -> Result<AnchorExplanation<L>, Error>)
      returns (r: Result<AnchorExplanation<L>, Error>)
      requires WellFormed(instance)
      modifies this
      ensures Transformed(instance, meta).Err? ==> r == Err(Transformed(instance, meta).error)
      ensures Transformed(instance, meta).Ok? && Transformed(instance, meta).value.data == [] ==> r == Err(IndexError)
      ensures Transformed(instance, meta).Ok? && Transformed(instance, meta).value.data != [] ==>
                r == anchor(Transformed(instance, meta).value.data[0])
      ensures r.Ok? ==> explained == Some(Explained(r.value, Transformed(instance, meta).value.data[0]))
      ensures r.Err? ==> explained == old(explained)
    {
      var t := TransformDataset(instance, meta);
      if t.Err? {
        return Err(t.error);
      }
      if t.value.data == [] {
        return Err(IndexError);
      }
      var row := t.value.data[0];
      r := anchor(row);
      if r.Ok? {
        explained := Some(Explained(r.value, row));
      }
    }
  }

  /** `AnchorsExplainer(data, predict_fn)`: the explainer's own dataset is
      transformed once; a dataset that cannot be transformed raises. */
  method NewAnchorsExplainer<L>(data: Frame, meta: Meta) returns (r: Result<AnchorsExplainer<L>, Error>)
    requires WellFormed(data)
    ensures r.Ok? <==> Transformed(data, meta).Ok?
    ensures r.Err? ==> r.error == Transformed(data, meta).error
    ensures r.Ok? ==> fresh(r.value) && r.value.meta == meta && r.value.dataset == Transformed(data, meta).value
                      && r.value.explained.None?
  {
    var ds := TransformDataset(data, meta);
    if ds.Err? {
      return Err(ds.error);
    }
    var e := new AnchorsExplainer(meta, ds.value);
    r := Ok(e);
  }
}
