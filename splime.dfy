/** The SP-LIME samplers (astrapia/samplers/splime.py and
    xaibenchmark/samplers/splime.py): the categorical columns of the data
    are coded as label positions for LIME; the predictor handed to
    submodular pick decodes them again before calling the user's model;
    and the feature names and values of the picked explanations are turned
    back into one table row per explanation. LIME's explainer and its
    submodular pick are foreign code: the pick is a parameter. */
module SpLime {
  import opened Values
  import opened Text
  import opened Frames
  import opened Utils
  import opened Coding

  /** The parts of a dataset the sampler reads: the table, the feature
      names and the label list of every categorical feature. */
  datatype Dataset = Dataset(data: Frame, featureNames: seq<string>, cats: Categories)

  /** What submodular pick reports of one picked explanation: the feature
      names and values of its domain mapper. */
  datatype Picked = Picked(names: seq<string>, values: seq<Cell>)

  /** The user's model, when one was given. */
  type Model<P> = Option<Frame -> Result<P, Error>>

  /** `custom_predict(X)`: `pd.DataFrame(X, columns=feature_names)` needs
      rows as wide as the feature list (ValueError otherwise); each
      categorical column is mapped back through `labels[int(x)]`; the model
      is called on the decoded frame (a missing model is not callable:
      TypeError). */
  function CustomPredict<P>(X: seq<seq<Cell>>, ds: Dataset, model: Model<P>): (r: Result<P, Error>)
    ensures (exists i :: 0 <= i < |X| && |X[i]| != |ds.featureNames|) ==> r == Err(ValueError)
    ensures (forall i :: 0 <= i < |X| ==> |X[i]| == |ds.featureNames|) ==>
      var decoded := DecodedRows(X, ds.featureNames, ds.cats, Positions(ds.featureNames, ds.cats, true), Truncating);
      (decoded.Err? ==> r == Err(decoded.error))
      && (decoded.Ok? && model.None? ==> r == Err(TypeError))
      && (decoded.Ok? && model.Some? ==> r == model.value(Frame(ds.featureNames, RangeIndex(|X|), decoded.value)))
  {
    if exists i :: 0 <= i < |X| && |X[i]| != |ds.featureNames| then Err(ValueError)
    else
      match DecodedRows(X, ds.featureNames, ds.cats, Positions(ds.featureNames, ds.cats, true), Truncating)
      case Err(e) => Err(e)
      case Ok(decoded) =>
        if model.None? then Err(TypeError)
        else model.value(Frame(ds.featureNames, RangeIndex(|X|), decoded))
  }

  /** The predictor handed to submodular pick. */
  function Predictor<P>(ds: Dataset, model: Model<P>): seq<seq<Cell>> -> Result<P, Error>
  {
    X => CustomPredict(X, ds, model)
  }

  /** `custom_predict` undoes the coding of the sampler: on the coded
      table it calls the model on the original table (under a fresh
      `RangeIndex`), provided the feature names are the table's distinct
      columns, the labels of each categorical feature print differently,
      and every categorical cell is one of its labels. */
  lemma CustomPredictOfCoded<P>(ds: Dataset, f: Frame -> Result<P, Error>)
    requires WellFormed(ds.data) && ds.data.columns == ds.featureNames && Distinct(ds.featureNames)
    requires forall p :: 0 <= p < |ds.featureNames| && ds.featureNames[p] in ds.cats ==>
               Distinct(Strs(ds.cats[ds.featureNames[p]]))
               && forall i :: 0 <= i < |ds.data.rows| ==> ds.data.rows[i][p] in ds.cats[ds.featureNames[p]]
    requires ds.data.rows != [] || forall p :: 0 <= p < |ds.featureNames| ==> ds.featureNames[p] !in ds.cats
    ensures var coded := CodedRows(ds.data.rows, |ds.featureNames|, ds.featureNames, ds.cats,
                                   Positions(ds.featureNames, ds.cats, true));
            coded.Ok? && CustomPredict(coded.value, ds, Some(f)) == f(Frame(ds.featureNames, RangeIndex(|ds.data.rows|), ds.data.rows))
  {
    CodingRoundTrip(ds.data.rows, ds.featureNames, ds.cats, Truncating);
  }

  /** Python `float(value)`: numbers convert, text is parsed (`parse`
      stands for Python's float syntax) and otherwise raises ValueError. */
  function ToFloat(value: Cell, parse: string -> Option<real>): (r: Result<Cell, Error>)
    ensures r.Ok? ==> r.value.Real?
    ensures r.Err? <==> value.Text? && parse(value.s).None?
    ensures r.Err? ==> r.error == ValueError
    ensures value.Int? ==> r == Ok(Real(value.i as real))
    ensures value.Real? ==> r == Ok(value)
  {
    match value
    case Int(i) => Ok(Real(i as real))
    case Real(x) => Ok(value)
    case Text(t) =>
      match parse(t)
      case None => Err(ValueError)
      case Some(x) => Ok(Real(x))
  }

  /** `process_feature(name, value)`: a name whose part before the last
      `'='` is not a categorical feature gives `float(value)`; otherwise
      the name must split in two at its last `'='` (ValueError when it has
      none), the suffix must be an integer (ValueError), and the label at
      that (possibly negative) position is returned (IndexError past the
      list). */
  function ProcessFeature(name: string, value: Cell, cats: Categories, parse: string -> Option<real>)
    : (r: Result<Cell, Error>)
    ensures '=' !in name && name !in cats ==> r == ToFloat(value, parse)
    ensures '=' !in name && name in cats ==> r == Err(ValueError)
    ensures RSplitOnce(name, '=')[0] in cats && r.Ok? ==> r.value in cats[RSplitOnce(name, '=')[0]]
  {
    var parts := RSplitOnce(name, '=');
    if parts[0] !in cats then ToFloat(value, parse)
    else if |parts| != 2 then Err(ValueError)
    else
      match ParseInt(parts[1])
      case None => Err(ValueError)
      case Some(k) => PyIndex(cats[parts[0]], k)
  }

  /** LIME names a categorical feature `f` with code `k` as `f=k`;
      processing that name gives back the label at position `k`, whatever
      `f` itself contains. */
  lemma ProcessIndicator(f: string, k: nat, value: Cell, cats: Categories, parse: string -> Option<real>)
    requires f in cats
    ensures ProcessFeature(f + "=" + NatToString(k), value, cats, parse) == PyIndex(cats[f], k)
  {
    var digits := NatToString(k);
    assert '=' !in digits by {
      forall i | 0 <= i < |digits| ensures digits[i] != '=' {
        assert IsDigit(digits[i]);
      }
    }
    RSplitOfJoin(f, '=', digits);
    assert f + "=" + digits == f + ['='] + digits;
    ParseIntOfNatToString(k);
  }

  /** The name LIME gives a coded categorical cell is processed back into
      the label that was coded, when the labels print differently. */
  lemma ProcessCodedLabel(f: string, c: Cell, value: Cell, cats: Categories, parse: string -> Option<real>)
    requires f in cats && Distinct(Strs(cats[f])) && c in cats[f]
    ensures Code(cats[f], c).Ok? && Code(cats[f], c).value.Int? && Code(cats[f], c).value.i >= 0
    ensures ProcessFeature(f + "=" + NatToString(Code(cats[f], c).value.i), value, cats, parse) == Ok(c)
  {
    var k :| 0 <= k < |cats[f]| && cats[f][k] == c;
    CodeOfLabel(cats[f], k);
    ProcessIndicator(f, k, value, cats, parse);
  }

  /** `zip(names, values)` stops at the shorter list. */
  function ZipLength(p: Picked): (n: nat)
    ensures n <= |p.names| && n <= |p.values| && (n == |p.names| || n == |p.values|)
  {
    if |p.names| <= |p.values| then |p.names| else |p.values|
  }

  /** `[process_feature(n, v) for n, v in zip(names, values)]`: the first
      feature that fails raises. */
  function ProcessedFeatures(p: Picked, n: nat, cats: Categories, parse: string -> Option<real>)
    : (r: Result<seq<Cell>, Error>)
    requires n <= ZipLength(p)
    ensures r.Ok? <==> forall k :: 0 <= k < n ==> ProcessFeature(p.names[k], p.values[k], cats, parse).Ok?
    ensures r.Ok? ==> |r.value| == n
                      && forall k :: 0 <= k < n ==> Ok(r.value[k]) == ProcessFeature(p.names[k], p.values[k], cats, parse)
    ensures r.Err? ==> exists k :: 0 <= k < n && ProcessFeature(p.names[k], p.values[k], cats, parse) == Err(r.error)
  {
    if n == 0 then Ok([])
    else
      match ProcessedFeatures(p, n - 1, cats, parse)
      case Err(e) => Err(e)
      case Ok(init) =>
        match ProcessFeature(p.names[n - 1], p.values[n - 1], cats, parse)
        case Err(e) => Err(e)
        case Ok(c) =>
          assert forall k :: 0 <= k < n - 1 ==> (init + [c])[k] == init[k];
          Ok(init + [c])
  }

  /** `pd.Series(features, index=data.data.columns)`: one row of the
      result; the processed features must be exactly as many as the
      columns (ValueError otherwise). */
  function SampleRow(p: Picked, columns: seq<string>, cats: Categories, parse: string -> Option<real>)
    : (r: Result<seq<Cell>, Error>)
    ensures r.Ok? <==> ZipLength(p) == |columns|
                       && forall k :: 0 <= k < |columns| ==> ProcessFeature(p.names[k], p.values[k], cats, parse).Ok?
    ensures r.Ok? ==> |r.value| == |columns|
                      && forall k :: 0 <= k < |columns| ==> Ok(r.value[k]) == ProcessFeature(p.names[k], p.values[k], cats, parse)
    ensures ProcessedFeatures(p, ZipLength(p), cats, parse).Ok? && ZipLength(p) != |columns| ==> r == Err(ValueError)
  {
    match ProcessedFeatures(p, ZipLength(p), cats, parse)
    case Err(e) => Err(e)
    case Ok(features) => if |features| != |columns| then Err(ValueError) else Ok(features)
  }

  /** The rows appended for the picked explanations, in pick order; the
      first explanation that cannot be turned into a row raises. */
  function SampleRows(picks: seq<Picked>, columns: seq<string>, cats: Categories, parse: string -> Option<real>)
    : (r: Result<seq<seq<Cell>>, Error>)
    ensures r.Ok? <==> forall i :: 0 <= i < |picks| ==> SampleRow(picks[i], columns, cats, parse).Ok?
    ensures r.Ok? ==> |r.value| == |picks| && Rectangular(r.value, |columns|)
                      && forall i :: 0 <= i < |picks| ==> Ok(r.value[i]) == SampleRow(picks[i], columns, cats, parse)
  {
    if picks == [] then Ok([])
    else
      var n := |picks| - 1;
      assert forall i :: 0 <= i < n ==> picks[..n][i] == picks[i];
      match SampleRows(picks[..n], columns, cats, parse)
      case Err(e) => Err(e)
      case Ok(init) =>
        match SampleRow(picks[n], columns, cats, parse)
        case Err(e) => Err(e)
        case Ok(row) =>
          SampleRowsAppended(picks, columns, cats, parse, init, row);
          Ok(init + [row])
  }

  /** The last picked explanation's row completes the rows of the others. */
  lemma SampleRowsAppended(picks: seq<Picked>, columns: seq<string>, cats: Categories, parse: string -> Option<real>,
                           init: seq<seq<Cell>>, row: seq<Cell>)
    requires |picks| > 0 && |init| == |picks| - 1
    requires forall i :: 0 <= i < |init| ==> Ok(init[i]) == SampleRow(picks[i], columns, cats, parse)
    requires SampleRow(picks[|init|], columns, cats, parse) == Ok(row)
    ensures forall i :: 0 <= i < |picks| ==> SampleRow(picks[i], columns, cats, parse).Ok?
    ensures Rectangular(init + [row], |columns|)
    ensures forall i :: 0 <= i < |picks| ==> Ok((init + [row])[i]) == SampleRow(picks[i], columns, cats, parse)
  {
    forall i | 0 <= i < |picks|
      ensures Ok((init + [row])[i]) == SampleRow(picks[i], columns, cats, parse)
    {
      if i < |init| {
        assert (init + [row])[i] == init[i];
      }
    }
  }

  /** What `sample` does once the model is known to be present: code the
      categorical columns, let submodular pick choose `count` explanations
      with the decoding predictor, and assemble one row per explanation
      under the columns of the data. */
  function Sampled<P>(ds: Dataset, count: int, model: Model<P>,
                      pick: (seq<seq<Cell>>, seq<seq<Cell>> -> Result<P, Error>, int) -> Result<seq<Picked>, Error>,
                      parse: string -> Option<real>): (r: Result<Frame, Error>)
    requires WellFormed(ds.data)
    ensures r.Ok? ==> WellFormed(r.value) && r.value.columns == ds.data.columns && r.value.index == RangeIndex(|r.value.rows|)
  {
    match CodedRows(ds.data.rows, |ds.data.columns|, ds.featureNames, ds.cats, Positions(ds.featureNames, ds.cats, true))
    case Err(e) => Err(e)
    case Ok(coded) =>
      match pick(coded, Predictor(ds, model), count)
      case Err(e) => Err(e)
      case Ok(picks) =>
        match SampleRows(picks, ds.data.columns, ds.cats, parse)
        case Err(e) => Err(e)
        case Ok(rows) => Ok(Frame(ds.data.columns, RangeIndex(|rows|), rows))
  }

  /** The result of sampling: exactly the columns of the data and one row
      per picked explanation, in pick order, each cell the processed
      feature of that explanation at that column. */
  lemma SampledRows<P>(ds: Dataset, count: int, model: Model<P>,
                       pick: (seq<seq<Cell>>, seq<seq<Cell>> -> Result<P, Error>, int) -> Result<seq<Picked>, Error>,
                       parse: string -> Option<real>)
    requires WellFormed(ds.data) && Sampled(ds, count, model, pick, parse).Ok?
    ensures var coded := CodedRows(ds.data.rows, |ds.data.columns|, ds.featureNames, ds.cats, Positions(ds.featureNames, ds.cats, true));
            var out := Sampled(ds, count, model, pick, parse).value;
            coded.Ok? && pick(coded.value, Predictor(ds, model), count).Ok?
            && var picks := pick(coded.value, Predictor(ds, model), count).value;
               |out.rows| == |picks| && out.columns == ds.data.columns
               && forall i, k :: 0 <= i < |picks| && 0 <= k < |out.columns| ==>
                    Ok(out.rows[i][k]) == ProcessFeature(picks[i].names[k], picks[i].values[k], ds.cats, parse)
  {
    var coded := CodedRows(ds.data.rows, |ds.data.columns|, ds.featureNames, ds.cats, Positions(ds.featureNames, ds.cats, true));
    var picks := pick(coded.value, Predictor(ds, model), count).value;
    var rows := SampleRows(picks, ds.data.columns, ds.cats, parse).value;
    forall i, k | 0 <= i < |picks| && 0 <= k < |ds.data.columns|
      ensures Ok(rows[i][k]) == ProcessFeature(picks[i].names[k], picks[i].values[k], ds.cats, parse)
    {
      assert Ok(rows[i]) == SampleRow(picks[i], ds.data.columns, ds.cats, parse);
    }
  }

  /** The assembly loop: `samples_df = samples_df.append(series,
      ignore_index=True)` once per explanation, starting from an empty
      frame with the data's columns. */
  method AssembleSamples(picks: seq<Picked>, columns: seq<string>, cats: Categories, parse: string -> Option<real>)
    returns (r: Result<Frame, Error>)
    ensures SampleRows(picks, columns, cats, parse).Err? ==> r == Err(SampleRows(picks, columns, cats, parse).error)
    ensures SampleRows(picks, columns, cats, parse).Ok? ==>
              r == Ok(Frame(columns, RangeIndex(|picks|), SampleRows(picks, columns, cats, parse).value))
  {
    var rows: seq<seq<Cell>> := [];
    for j := 0 to |picks|
      invariant SampleRows(picks[..j], columns, cats, parse) == Ok(rows)
    {
      SampleRowsNext(picks, columns, cats, parse, j, rows);
      var row := SampleRow(picks[j], columns, cats, parse);
      if row.Err? {
        SampleRowsFails(picks, columns, cats, parse, j + 1);
        return Err(row.error);
      }
      rows := rows + [row.value];
    }
    assert picks[..|picks|] == picks;
    r := Ok(Frame(columns, RangeIndex(|picks|), rows));
  }

  lemma SampleRowsNext(picks: seq<Picked>, columns: seq<string>, cats: Categories, parse: string -> Option<real>,
                       j: nat, rows: seq<seq<Cell>>)
    requires j < |picks| && SampleRows(picks[..j], columns, cats, parse) == Ok(rows)
    ensures SampleRow(picks[j], columns, cats, parse).Err? ==>
              SampleRows(picks[..j + 1], columns, cats, parse) == Err(SampleRow(picks[j], columns, cats, parse).error)
    ensures SampleRow(picks[j], columns, cats, parse).Ok? ==>
              SampleRows(picks[..j + 1], columns, cats, parse) == Ok(rows + [SampleRow(picks[j], columns, cats, parse).value])
  {
    assert picks[..j + 1][..j] == picks[..j];
  }

  lemma {:induction false} SampleRowsFails(picks: seq<Picked>, columns: seq<string>, cats: Categories,
                                           parse: string -> Option<real>, j: nat)
    requires j <= |picks| && SampleRows(picks[..j], columns, cats, parse).Err?
    ensures SampleRows(picks, columns, cats, parse) == SampleRows(picks[..j], columns, cats, parse)
  {
    if j < |picks| {
      var init := picks[..|picks| - 1];
      assert init[..j] == picks[..j];
      SampleRowsFails(init, columns, cats, parse, j);
    } else {
      assert picks[..j] == picks;
    }
  }

  /** `SPLimeSampler.sample` of xaibenchmark (and of astrapia after its
      model check): the coding loop, the pick, the assembly loop. */
  method PickSamples<P>(ds: Dataset, count: int, model: Model<P>,
                        pick: (seq<seq<Cell>>, seq<seq<Cell>> -> Result<P, Error>, int) -> Result<seq<Picked>, Error>,
                        parse: string -> Option<real>) returns (r: Result<Frame, Error>)
    requires WellFormed(ds.data)
    ensures r == Sampled(ds, count, model, pick, parse)
  {
    var coded := EncodeCategories(ds.data, ds.featureNames, ds.cats);
    if coded.Err? {
      return Err(coded.error);
    }
    var picks := pick(coded.value, Predictor(ds, model), count);
    if picks.Err? {
      return Err(picks.error);
    }
    r := AssembleSamples(picks.value, ds.data.columns, ds.cats, parse);
  }

  /** `SPLimeSampler.sample` of astrapia: a missing model raises
      ValueError before anything else happens. */
  method Sample<P>(ds: Dataset, count: int, model: Model<P>,
                   pick: (seq<seq<Cell>>, seq<seq<Cell>> -> Result<P, Error>, int) -> Result<seq<Picked>, Error>,
                   parse: string -> Option<real>) returns (r: Result<Frame, Error>)
    requires WellFormed(ds.data)
    ensures model.None? ==> r == Err(ValueError)
    ensures model.Some? ==> r == Sampled(ds, count, model, pick, parse)
  {
    if model.None? {
      return Err(ValueError);
    }
    r := PickSamples(ds, count, model, pick, parse);
  }
}
