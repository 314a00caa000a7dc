/** The older explainer base class of xaibenchmark/explainer.py. Its
    `infer_metrics` builds a fresh four-rule graph on every call and fires
    every rule whose prerequisites are available, without checking whether
    the produced name already exists; its `report` lists metrics only and
    never infers. The `metric`/`utility` wrappers at the top of the file are
    the decorators of module Tagging. */
module LegacyExplainer {
  import opened Values
  import opened Tagging
  import opened Objects
  import opened Transfer
  import opened TransferFunctions
  import opened ExplainerBase

  /** `1 / self.coverage()`. */
  function InverseCoverageValue(fs: seq<Callable>): (r: Outcome)
    ensures |fs| == 1 && fs[0]([]).Err? ==> r == fs[0]([])
    ensures |fs| == 1 && fs[0]([]).Ok? ==> r == PyReciprocal(fs[0]([]).value)
    ensures |fs| == 1 && fs[0]([]) == Ok(Num(0.0)) ==> r == Err(ZeroDivisionError)
    ensures |fs| == 1 && fs[0]([]) == Ok(NaN) ==> r == Ok(NaN)
  {
    if |fs| != 1 then Err(TypeError)
    else
      match fs[0]([])
      case Err(e) => Err(e)
      case Ok(v) => PyReciprocal(v)
  }

  /** `data.shape[1]`: the column count of a data frame. */
  function ColumnCount(v: PyVal): (r: Result<nat, Error>)
    ensures v.Table? ==> r == Ok(|v.frame.columns|)
    ensures v.Row? ==> r == Err(IndexError)
    ensures !v.Table? && !v.Row? ==> r == Err(AttributeError)
  {
    match v
    case Table(f) => Ok(|f.columns|)
    case Row(_) => Err(IndexError)
    case _ => Err(AttributeError)
  }

  /** `self.area() ** (1 / data().shape[1])`. */
  function AreaOverColumnsValue(fs: seq<Callable>, pow: (real, real) -> real): Outcome
  {
    if |fs| != 2 then Err(TypeError)
    else
      match fs[0]([])
      case Err(e) => Err(e)
      case Ok(area) =>
        match fs[1]([])
        case Err(e) => Err(e)
        case Ok(data) =>
          match ColumnCount(data)
          case Err(e) => Err(e)
          case Ok(n) => if n == 0 then Err(ZeroDivisionError) else PyPow(area, 1.0 / n as real, pow)
  }

  function InlineRule(prereqs: seq<string>, produced: string, body: seq<Callable> -> Outcome): Rule
  {
    Rule(prereqs, produced, PyFunction(produced, prereqs, body))
  }

  /** The graph `infer_metrics` builds on each call, in its order. */
  function TransferGraph(pow: (real, real) -> real): (rules: seq<Rule>)
    ensures |rules| == 4
    ensures rules[0].produced == "inverse_coverage" && rules[0].prereqs == ["coverage"]
    ensures rules[1].produced == "furthest_distance"
    ensures rules[1].prereqs == ["distance", "get_explained_instance", "get_neighborhood_instances"]
    ensures rules[2].produced == "area_hc_normalised" && rules[2].prereqs == ["area", "get_training_data"]
    ensures rules[3].produced == "area_hc_normalised" && rules[3].prereqs == ["area", "get_test_data"]
  {
    [ InlineRule(["coverage"], "inverse_coverage", InverseCoverageValue),
      InlineRule(["distance", "get_explained_instance", "get_neighborhood_instances"], "furthest_distance", FurthestDistanceValue),
      InlineRule(["area", "get_training_data"], "area_hc_normalised", fs => AreaOverColumnsValue(fs, pow)),
      InlineRule(["area", "get_test_data"], "area_hc_normalised", fs => AreaOverColumnsValue(fs, pow)) ]
  }

  /** `infer_metrics()`; the printed summary is not modelled. */
  method InferMetrics(e: Explainer, pow: (real, real) -> real)
    modifies e`attrs
    ensures e.attrs == Closure(old(e.attrs), TransferGraph(pow), false)
  {
    Infer(e, TransferGraph(pow), false);
  }

  /** `report()`: the metric-tagged attributes' values, no inference. */
  method Report(e: Explainer) returns (r: Result<map<string, PyVal>, Error>)
    ensures Reports(r, e.attrs, e.own(e.state), MetricNames(e.attrs))
  {
    r := CallAll(e, MetricNames(e.attrs));
  }

  /** With a metric `area` and the utilities `get_training_data` and
      `get_test_data`, both area rules fire in the first pass and the
      binding left behind is the later one, over the test data. */
  lemma TestDataAreaRuleWins(pow: (real, real) -> real)
    ensures var a := map["area" := Attr(Metric, Own), "get_training_data" := Attr(Utility, Own),
                         "get_test_data" := Attr(Utility, Own)];
      var c := Closure(a, TransferGraph(pow), false);
      "area_hc_normalised" in c && c["area_hc_normalised"] == DerivedAttr(TransferGraph(pow)[3])
  {
    var rules := TransferGraph(pow);
    var a := map["area" := Attr(Metric, Own), "get_training_data" := Attr(Utility, Own),
                 "get_test_data" := Attr(Utility, Own)];
    assert MuNames(a) == {"area", "get_training_data", "get_test_data"};
    assert "coverage" in rules[0].prereqs && "coverage" !in MuNames(a);
    assert "distance" in rules[1].prereqs && "distance" !in MuNames(a);
    assert !Fires(rules[0], MuNames(a), false) && !Fires(rules[1], MuNames(a), false);
    assert Fires(rules[2], MuNames(a), false) && Fires(rules[3], MuNames(a), false);
    var first := a["area_hc_normalised" := DerivedAttr(rules[3])];
    assert PassUpTo(a, rules, MuNames(a), false, 1) == a;
    assert PassUpTo(a, rules, MuNames(a), false, 2) == a;
    assert PassUpTo(a, rules, MuNames(a), false, 3) == a["area_hc_normalised" := DerivedAttr(rules[2])];
    assert Pass(a, rules, MuNames(a), false) == first;
    assert MetricNames(first) == {"area", "area_hc_normalised"};
    var m := MetricNames(first);
    assert "coverage" in rules[0].prereqs && "coverage" !in m;
    assert "distance" in rules[1].prereqs && "distance" !in m;
    assert "get_training_data" in rules[2].prereqs && "get_training_data" !in m;
    assert "get_test_data" in rules[3].prereqs && "get_test_data" !in m;
    assert PassUpTo(first, rules, m, false, 1) == first;
    assert PassUpTo(first, rules, m, false, 2) == first;
    assert PassUpTo(first, rules, m, false, 3) == first;
    assert Pass(first, rules, MetricNames(first), false) == first;
  }
}
