/** The explainer base class of astrapia/explainer.py: listing metrics and
    props by tag, running inference, and the tag-filtered report. The
    methods take the explainer object as their first argument, as Python
    methods take `self`. */
module ExplainerBase {
  import opened Values
  import opened Tagging
  import opened Objects
  import opened Transfer
  import opened Text

  /** `Explainer.__init__` of the base class. */
  function BaseInit(): (r: Result<(), Error>)
    ensures r == Err(NotImplementedError)
  {
    Err(NotImplementedError)
  }

  /** `explain_instance` of the base class. */
  function BaseExplainInstance(state: PyVal, instance: Frame): (r: Result<(PyVal, PyVal), Error>)
    ensures r == Err(NotImplementedError)
  {
    Err(NotImplementedError)
  }

  /** `transform_dataset` of the base class: a copy of the data. */
  function TransformDataset(data: Frame): Frame
  {
    data
  }

  /** `inverse_transform_dataset` of the base class: a copy of the data. */
  function InverseTransformDataset(data: Frame): Frame
  {
    data
  }

  /** The base transforms are inverse to each other in both directions and
      change nothing. */
  lemma BaseTransformsRoundTrip(data: Frame)
    ensures InverseTransformDataset(TransformDataset(data)) == data
    ensures TransformDataset(InverseTransformDataset(data)) == data
    ensures TransformDataset(data) == data
  {
  }

  /** `metrics()`: the metric-tagged names in `dir` order. */
  method Metrics(e: Explainer) returns (names: seq<string>)
    ensures StrictlySorted(names)
    ensures forall x :: x in names <==> x in e.attrs && e.attrs[x].tag == Metric
  {
    names := SortedNames(MetricNames(e.attrs));
  }

  /** `props()`: the prop-tagged names in `dir` order. */
  method Props(e: Explainer) returns (names: seq<string>)
    ensures StrictlySorted(names)
    ensures forall x :: x in names <==> x in e.attrs && e.attrs[x].tag == Prop
  {
    names := SortedNames(PropNames(e.attrs));
  }

  /** `infer_metrics()`; the printed summary is not modelled. */
  method InferMetrics(reg: Registry, e: Explainer)
    modifies e`attrs
    ensures e.attrs == Closure(old(e.attrs), reg.rules, true)
  {
    reg.UseTransfer(e);
  }

  /** The tags a report accepts: None, 'metric' or 'prop'. */
  predicate KnownTag(tag: Option<string>)
  {
    tag.None? || tag == Some("metric") || tag == Some("prop")
  }

  /** The names a report with a known tag selects. */
  function Selected(attrs: Attrs, tag: Option<string>): set<string>
    requires KnownTag(tag)
  {
    if tag.None? then MetricNames(attrs) + PropNames(attrs)
    else if tag == Some("metric") then MetricNames(attrs)
    else PropNames(attrs)
  }

  /** Every selected name is a metric or a prop of the requested kind and
      every such attribute is selected; utilities never are. */
  lemma SelectedByTag(attrs: Attrs, tag: Option<string>)
    requires KnownTag(tag)
    ensures forall x :: x in Selected(attrs, tag) <==>
      x in attrs && (if tag.None? then attrs[x].tag in {Metric, Prop}
                     else if tag == Some("metric") then attrs[x].tag == Metric
                     else attrs[x].tag == Prop)
    ensures forall x :: x in Selected(attrs, tag) ==> attrs[x].tag != Utility
  {
  }

  /** What a report over `names` amounts to: every attribute called with no
      arguments; the report exists when none raises, and otherwise one of
      the raised exceptions propagates. */
  ghost predicate Reports(r: Result<map<string, PyVal>, Error>, attrs: Attrs, own: string -> Callable, names: set<string>)
  {
    (r.Ok? <==> forall x :: x in names ==> Call(attrs, own, x, [], RecursionLimit).Ok?)
    && (r.Ok? ==> r.value.Keys == names && forall x :: x in names ==> Call(attrs, own, x, [], RecursionLimit) == Ok(r.value[x]))
    && (r.Err? ==> exists x :: x in names && Call(attrs, own, x, [], RecursionLimit) == Err(r.error))
  }

  /** `{(x, f()) for (x, f) in refs}`: the attributes are called in the
      order the set yields them, which the model leaves open. */
  method CallAll(e: Explainer, names: set<string>) returns (r: Result<map<string, PyVal>, Error>)
    ensures Reports(r, e.attrs, e.own(e.state), names)
  {
    var own := e.own(e.state);
    var values: map<string, PyVal> := map[];
    var rest := names;
    while rest != {}
      invariant rest <= names
      invariant values.Keys == names - rest
      invariant forall x :: x in values ==> Call(e.attrs, own, x, [], RecursionLimit) == Ok(values[x])
      decreases |rest|
    {
      var x :| x in rest;
      var v := Call(e.attrs, own, x, [], RecursionLimit);
      if v.Err? {
        return Err(v.error);
      }
      values := values[x := v.value];
      rest := rest - {x};
    }
    r := Ok(values);
  }

  /** `report(tag, inferred_metrics)`: inference first when asked, then the
      tag check, then the selected attributes' values keyed by name. */
  method Report(reg: Registry, e: Explainer, tag: Option<string>, inferredMetrics: bool) returns (r: Result<map<string, PyVal>, Error>)
    modifies e`attrs
    ensures e.attrs == if inferredMetrics then Closure(old(e.attrs), reg.rules, true) else old(e.attrs)
    ensures !KnownTag(tag) ==> r == Err(ValueError)
    ensures KnownTag(tag) ==> Reports(r, e.attrs, e.own(e.state), Selected(e.attrs, tag))
  {
    if inferredMetrics {
      InferMetrics(reg, e);
    }
    if !KnownTag(tag) {
      return Err(ValueError);
    }
    r := CallAll(e, Selected(e.attrs, tag));
  }
}
