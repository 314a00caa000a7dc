/** The explanation record of the vendored DLIME code
    (astrapia/explainers/DLime/explanation.py): the maps a local
    explanation fills in, the fields its mode decides, and the reads the
    DLIME explainer and its metrics rely on. The record's maps are filled
    by DLIME's tabular explainer, which is not part of this model, so the
    reads are specified for any state the record can be in. */
module DLimeExplanation {
  import opened Values
  import opened Utils

  /** The weights of a local explanation: feature ids with their weights. */
  type Weights = seq<(int, real)>

  /** `DomainMapper.map_exp_ids(exp)` of the base mapper: the explanation
      is returned as it is. */
  function MapExpIds(exp: Weights): Weights
  {
    exp
  }

  class Explanation {
    const mode: string
    /** `domain_mapper.map_exp_ids`. */
    const mapExpIds: Weights -> Weights
    var classNames: Option<seq<string>>
    /** `local_exp` and the order in which its labels were inserted. */
    var localExp: map<int, Weights>
    var labels: seq<int>
    var intercept: map<int, real>
    var score: map<int, real>
    var localPred: map<int, real>
    var scaledData: Option<seq<seq<real>>>
    /** Classification only: `top_labels` and `predict_proba`. */
    var topLabels: Option<seq<int>>
    var predictProba: Option<seq<real>>
    /** Regression only: `predicted_value`, `min_value`, `max_value` and
        `dummy_label`; None stands for an attribute the mode never sets. */
    var predictedValue: Option<real>
    var minValue: Option<real>
    var maxValue: Option<real>
    var dummyLabel: Option<int>

    /** The mode is one of the two supported ones, the attributes of the
        other mode do not exist, and the label order lists the keys of
        `local_exp` once each. */
    predicate Valid()
      reads this
    {
      (mode == "classification" || mode == "regression")
      && (mode == "regression" ==> dummyLabel.Some?)
      && (mode == "classification" ==> dummyLabel.None? && predictedValue.None? && minValue.None? && maxValue.None?)
      && Distinct(labels)
      && (forall l :: l in labels ==> l in localExp)
      && (forall l :: l in localExp ==> l in labels)
    }

    constructor (mapExpIds: Weights -> Weights, mode: string, classNames: Option<seq<string>>)
      requires mode == "classification" || mode == "regression"
      ensures Valid()
      ensures this.mode == mode && this.mapExpIds == mapExpIds
      ensures localExp == map[] && labels == [] && intercept == map[] && score == map[] && localPred == map[]
      ensures scaledData.None? && topLabels.None? && predictProba.None?
      ensures mode == "classification" ==> this.classNames == classNames && dummyLabel.None?
      ensures mode == "regression" ==>
        this.classNames == Some(["negative", "positive"]) && predictedValue.None?
        && minValue == Some(0.0) && maxValue == Some(1.0) && dummyLabel == Some(1)
    {
      this.mode := mode;
      this.mapExpIds := mapExpIds;
      localExp := map[];
      labels := [];
      intercept := map[];
      score := map[];
      localPred := map[];
      scaledData := None;
      topLabels := None;
      predictProba := None;
      if mode == "classification" {
        this.classNames := classNames;
        predictedValue := None;
        minValue := None;
        maxValue := None;
        dummyLabel := None;
      } else {
        this.classNames := Some(["negative", "positive"]);
        predictedValue := None;
        minValue := Some(0.0);
        maxValue := Some(1.0);
        dummyLabel := Some(1);
      }
    }

    /** `available_labels()`: regression explanations refuse
        (NotImplementedError); otherwise the top labels when there are
        any, else the labels of `local_exp` in insertion order. */
    function AvailableLabels(): (r: Result<seq<int>, Error>)
      reads this
      requires Valid()
      ensures r.Err? <==> mode != "classification"
      ensures r.Err? ==> r.error == NotImplementedError
      ensures r.Ok? && topLabels.Some? && topLabels.value != [] ==> r.value == topLabels.value
      ensures r.Ok? && (topLabels.None? || topLabels.value == []) ==>
                Distinct(r.value) && forall l :: l in r.value <==> l in localExp
    {
      if mode != "classification" then Err(NotImplementedError)
      else if topLabels.Some? && topLabels.value != [] then Ok(topLabels.value)
      else Ok(labels)
    }

    /** The label `as_list_one` and `as_list_zero` read: the requested one
        for classification, `dummy_label` for regression. */
    function LabelToUse(wanted: int): (l: int)
      reads this
      requires Valid()
      ensures mode == "classification" ==> l == wanted
      ensures mode == "regression" ==> l == dummyLabel.value
    {
      if mode == "classification" then wanted else dummyLabel.value
    }

    /** `as_list_one(label)` and `as_list_zero(label)` (they differ only in
        their default label, 1 and 0): the weights recorded for the label
        to use, through the domain mapper; KeyError when none were
        recorded. */
    function AsList(wanted: int): (r: Result<Weights, Error>)
      reads this
      requires Valid()
      ensures r.Err? <==> LabelToUse(wanted) !in AsMap()
      ensures r.Err? ==> r.error == KeyError
      ensures r.Ok? ==> r.value == mapExpIds(AsMap()[LabelToUse(wanted)])
    {
      var l := LabelToUse(wanted);
      if l in localExp then Ok(mapExpIds(localExp[l])) else Err(KeyError)
    }

    /** `as_map()`: the recorded weights per label, the dictionary itself. */
    function AsMap(): map<int, Weights>
      reads this
    {
      localExp
    }
  }

  /** `Explanation(domain_mapper, mode, class_names)`: an unsupported mode
      raises; the exception class it names is not defined in the module,
      so what Python raises is NameError. */
  method NewExplanation(mapExpIds: Weights -> Weights, mode: string, classNames: Option<seq<string>>)
    returns (r: Result<Explanation, Error>)
    ensures r.Err? <==> mode != "classification" && mode != "regression"
    ensures r.Err? ==> r.error == NameError
    ensures r.Ok? ==> fresh(r.value) && r.value.Valid() && r.value.mode == mode && r.value.AsMap() == map[]
    ensures r.Ok? && mode == "classification" ==> r.value.AvailableLabels() == Ok([]) && r.value.classNames == classNames
    ensures r.Ok? && mode == "regression" ==>
              r.value.AvailableLabels() == Err(NotImplementedError) && r.value.LabelToUse(0) == 1
  {
    if mode != "classification" && mode != "regression" {
      return Err(NameError);
    }
    var e := new Explanation(mapExpIds, mode, classNames);
    r := Ok(e);
  }

  /** With the base domain mapper, a classification explanation lists
      exactly the weights `as_map` holds for the label, and every label
      `available_labels` reports without top labels can be listed. */
  lemma ListedWeights(e: Explanation, wanted: int)
    requires e.Valid() && e.mode == "classification" && e.mapExpIds == MapExpIds
    ensures wanted in e.AsMap() ==> e.AsList(wanted) == Ok(e.AsMap()[wanted])
    ensures e.topLabels.None? && e.AvailableLabels().Ok? && wanted in e.AvailableLabels().value ==> e.AsList(wanted).Ok?
  {
  }
}
