/** The neighbourhood metrics of the LIME-family explainers
    (astrapia/explainers/dlime.py and xaibenchmark/explainers/lime.py): after
    an explanation, every training row is weighted by the kernel of its
    distance to the explained instance, and coverage, accuracy and balance
    are (weighted) shares over those rows. The kernel
    `sqrt(exp(-d**2 / width**2))` and the Euclidean distance are floating-point
    library code; the model takes their composition as a parameter whose
    values lie in [0, 1], as the kernel's do. */
module LimeMetrics {
  import opened Values
  import opened Tagging

  /** A kernel weight: `sqrt(exp(-d**2 / w**2))` lies in [0, 1]. */
  type KernelWeight = w: real | 0.0 <= w <= 1.0

  /** A `(row, weight)` pair of `get_weighted_instances()`. */
  type Weighted = (seq<real>, KernelWeight)

  /** Python `sum(xs)` of reals (0 for an empty list). */
  function Sum(xs: seq<real>): real
  {
    if xs == [] then 0.0 else Sum(xs[..|xs| - 1]) + xs[|xs| - 1]
  }

  /** A sum of values in [lo, hi] lies between `n * lo` and `n * hi`. */
  lemma {:induction false} SumBounds(xs: seq<real>, lo: real, hi: real)
    requires forall k :: 0 <= k < |xs| ==> lo <= xs[k] <= hi
    ensures |xs| as real * lo <= Sum(xs) <= |xs| as real * hi
  {
    if xs != [] {
      SumBounds(xs[..|xs| - 1], lo, hi);
    }
  }

  /** `[weight for _, weight in weighted_instances]`. */
  function WeightsOf(ws: seq<Weighted>): (weights: seq<real>)
    ensures |weights| == |ws|
    ensures forall k :: 0 <= k < |ws| ==> weights[k] == ws[k].1 && 0.0 <= weights[k] <= 1.0
  {
    seq(|ws|, k requires 0 <= k < |ws| => ws[k].1 as real)
  }

  /** `get_weighted_instances()`: nothing before an explanation exists;
      afterwards one pair per training row, in row order, weighted by the
      kernel of the row's distance to the explained instance. */
  function WeightedInstances(explained: bool, instance: seq<real>, train: seq<seq<real>>,
                             kernel: (seq<real>, seq<real>) -> KernelWeight): (ws: seq<Weighted>)
    ensures ws == [] <==> !explained || train == []
    ensures explained ==> |ws| == |train|
    ensures explained ==> forall k :: 0 <= k < |ws| ==> ws[k].0 == train[k] && ws[k].1 == kernel(instance, train[k])
  {
    if explained then seq(|train|, k requires 0 <= k < |train| => (train[k], kernel(instance, train[k])))
    else []
  }

  /** `coverage_absolute()`: the sum of the weights; the attribute
      `weighted_instances` exists only once an instance was explained
      (`None`: AttributeError). */
  function CoverageAbsolute(weighted: Option<seq<Weighted>>): (r: Result<real, Error>)
    ensures r.Err? <==> weighted.None?
    ensures r.Err? ==> r.error == AttributeError
    ensures r.Ok? ==> 0.0 <= r.value <= |weighted.value| as real
  {
    match weighted
    case None => Err(AttributeError)
    case Some(ws) =>
      SumBounds(WeightsOf(ws), 0.0, 1.0);
      Ok(Sum(WeightsOf(ws)))
  }

  /** `coverage()`: the mean weight; an empty neighbourhood divides the
      integer 0 by the integer 0. */
  function Coverage(weighted: Option<seq<Weighted>>): (r: Result<real, Error>)
    ensures weighted.None? ==> r == Err(AttributeError)
    ensures weighted == Some([]) ==> r == Err(ZeroDivisionError)
    ensures r.Ok? ==> 0.0 <= r.value <= 1.0
  {
    match weighted
    case None => Err(AttributeError)
    case Some(ws) =>
      if ws == [] then Err(ZeroDivisionError)
      else
        SumBounds(WeightsOf(ws), 0.0, 1.0);
        Ok(Sum(WeightsOf(ws)) / |ws| as real)
  }

  /** The two coverage metrics agree: the absolute one is the relative one
      times the number of weighted rows. */
  lemma CoverageTimesCount(weighted: Option<seq<Weighted>>)
    requires weighted.Some? && weighted.value != []
    ensures Coverage(weighted).Ok? && CoverageAbsolute(weighted).Ok?
    ensures Coverage(weighted).value * |weighted.value| as real == CoverageAbsolute(weighted).value
  {
  }

  /** `(flags * weights).sum()`: the weight of the flagged rows. */
  function FlaggedSum(flags: seq<bool>, weights: seq<real>): real
    requires |flags| == |weights|
  {
    if flags == [] then 0.0
    else FlaggedSum(flags[..|flags| - 1], weights[..|weights| - 1]) + (if flags[|flags| - 1] then weights[|weights| - 1] else 0.0)
  }

  /** With non-negative weights the flagged weight lies between 0 and the
      total weight, and equals it when every row is flagged. */
  lemma {:induction false} FlaggedSumBounds(flags: seq<bool>, weights: seq<real>)
    requires |flags| == |weights| && forall k :: 0 <= k < |weights| ==> 0.0 <= weights[k]
    ensures 0.0 <= FlaggedSum(flags, weights) <= Sum(weights)
    ensures (forall k :: 0 <= k < |flags| ==> flags[k]) ==> FlaggedSum(flags, weights) == Sum(weights)
    ensures (forall k :: 0 <= k < |flags| ==> !flags[k]) ==> FlaggedSum(flags, weights) == 0.0
  {
    if flags != [] {
      FlaggedSumBounds(flags[..|flags| - 1], weights[..|weights| - 1]);
    }
  }

  /** A part over a positive whole lies in [0, 1]. */
  lemma Ratio(part: real, whole: real)
    requires 0.0 <= part <= whole && whole > 0.0
    ensures 0.0 <= part / whole <= 1.0
    ensures part == whole ==> part / whole == 1.0
    ensures part == 0.0 ==> part / whole == 0.0
  {
  }

  /** `(flags * weights).sum() / sum(weights)` on numpy floats, the two
      arrays of one length: the weighted share of the flagged rows; a zero
      total weight gives `0.0 / 0` = NaN. */
  function WeightedShare(flags: seq<bool>, weights: seq<real>): (r: PyVal)
    requires |flags| == |weights| && forall k :: 0 <= k < |weights| ==> 0.0 <= weights[k]
    ensures r == NaN <==> Sum(weights) == 0.0
    ensures r != NaN ==> r.Num? && 0.0 <= r.r <= 1.0
    ensures r != NaN && (forall k :: 0 <= k < |flags| ==> flags[k]) ==> r == Num(1.0)
    ensures r != NaN && (forall k :: 0 <= k < |flags| ==> !flags[k]) ==> r == Num(0.0)
  {
    FlaggedSumBounds(flags, weights);
    if Sum(weights) == 0.0 then NaN
    else
      Ratio(FlaggedSum(flags, weights), Sum(weights));
      Num(FlaggedSum(flags, weights) / Sum(weights))
  }

  /** `flags.sum() / len(flags)` on a numpy boolean array: the share of
      flagged entries; an empty array gives `0 / 0` = NaN. */
  function Share(flags: seq<bool>): (r: PyVal)
    ensures r == NaN <==> flags == []
    ensures r != NaN ==> r.Num? && 0.0 <= r.r <= 1.0
    ensures r != NaN && (forall k :: 0 <= k < |flags| ==> flags[k]) ==> r == Num(1.0)
    ensures r != NaN && (forall k :: 0 <= k < |flags| ==> !flags[k]) ==> r == Num(0.0)
  {
    var ones := seq(|flags|, k requires 0 <= k < |flags| => 1.0);
    FlaggedSumBounds(flags, ones);
    SumBounds(ones, 1.0, 1.0);
    if flags == [] then NaN
    else
      Ratio(FlaggedSum(flags, ones), |flags| as real);
      Num(FlaggedSum(flags, ones) / |flags| as real)
  }

  /** `np.clip(x, 0, 1)`. */
  function Clip(x: real): (r: real)
    ensures 0.0 <= r <= 1.0
    ensures 0.0 <= x <= 1.0 ==> r == x
    ensures x < 0.0 ==> r == 0.0
    ensures x > 1.0 ==> r == 1.0
  {
    if x < 0.0 then 0.0 else if x > 1.0 then 1.0 else x
  }

  /** `sum(weight * scaled[idx] for idx, weight in terms)`; an index past the
      end of the scaled instance raises IndexError. */
  function Linear(terms: seq<(nat, real)>, scaled: seq<real>): (r: Result<real, Error>)
    ensures r.Err? <==> exists t :: t in terms && t.0 >= |scaled|
    ensures r.Err? ==> r.error == IndexError
  {
    if terms == [] then Ok(0.0)
    else
      var last := terms[|terms| - 1];
      assert forall t :: t in terms <==> t in terms[..|terms| - 1] || t == last by {
        assert terms == terms[..|terms| - 1] + [last];
      }
      match Linear(terms[..|terms| - 1], scaled)
      case Err(e) => Err(e)
      case Ok(x) => if last.0 < |scaled| then Ok(x + last.1 * scaled[last.0]) else Err(IndexError)
  }

  /** `predict_instance_surrogate(instance)`: the surrogate's linear model
      (`intercept[1]` plus the weighted features of the standardised
      instance, `scaled`) clipped to [0, 1]. */
  function SurrogatePrediction(intercept: real, terms: seq<(nat, real)>, scaled: seq<real>): (r: Result<real, Error>)
    ensures r.Err? <==> Linear(terms, scaled).Err?
    ensures r.Ok? ==> 0.0 <= r.value <= 1.0
    ensures r.Ok? && 0.0 <= intercept + Linear(terms, scaled).value <= 1.0 ==> r.value == intercept + Linear(terms, scaled).value
  {
    match Linear(terms, scaled)
    case Err(e) => Err(e)
    case Ok(x) => Ok(Clip(intercept + x))
  }

  /** `np.array(predictions) > 0.5`. */
  function Above(predictions: seq<real>): (flags: seq<bool>)
    ensures |flags| == |predictions|
    ensures forall k :: 0 <= k < |flags| ==> (flags[k] <==> predictions[k] > 0.5)
  {
    seq(|predictions|, k requires 0 <= k < |predictions| => predictions[k] > 0.5)
  }

  /** `ml_preds == exp_preds`, elementwise. */
  function Agree(a: seq<bool>, b: seq<bool>): (flags: seq<bool>)
    requires |a| == |b|
    ensures |flags| == |a|
    ensures forall k :: 0 <= k < |flags| ==> (flags[k] <==> a[k] == b[k])
  {
    seq(|a|, k requires 0 <= k < |a| => a[k] == b[k])
  }

  /** The surrogate's predictions for the weighted rows. */
  function SurrogateOf(ws: seq<Weighted>, surrogate: seq<real> -> real): (ps: seq<real>)
    ensures |ps| == |ws| && forall k :: 0 <= k < |ws| ==> ps[k] == surrogate(ws[k].0)
  {
    seq(|ws|, k requires 0 <= k < |ws| => surrogate(ws[k].0))
  }

  /** DLIME's `balance_explanation()`: `None` (NaN through the metric
      wrapper) before any explanation; afterwards the weighted share of the
      neighbourhood the surrogate labels 1. */
  function BalanceExplanation(explained: bool, ws: seq<Weighted>, surrogate: seq<real> -> real): (r: PyVal)
    ensures !explained ==> r == NoneVal && MetricDecorator(_ => Ok(r)).call([]) == Ok(NaN)
    ensures explained ==> r == NaN || (r.Num? && 0.0 <= r.r <= 1.0)
    ensures explained && r != NaN && (forall k :: 0 <= k < |ws| ==> surrogate(ws[k].0) > 0.5) ==> r == Num(1.0)
  {
    if explained then WeightedShare(Above(SurrogateOf(ws, surrogate)), WeightsOf(ws)) else NoneVal
  }

  /** DLIME's `balance_model()`: `None` before any explanation; afterwards
      the weighted share of the training rows whose class-1 probability
      under the model exceeds 0.5. */
  function BalanceModel(explained: bool, ws: seq<Weighted>, modelProbs: seq<real>): (r: PyVal)
    requires |modelProbs| == |ws|
    ensures !explained ==> r == NoneVal && MetricDecorator(_ => Ok(r)).call([]) == Ok(NaN)
    ensures explained ==> r == NaN || (r.Num? && 0.0 <= r.r <= 1.0)
    ensures explained && r != NaN && (forall k :: 0 <= k < |ws| ==> modelProbs[k] <= 0.5) ==> r == Num(0.0)
  {
    if explained then WeightedShare(Above(modelProbs), WeightsOf(ws)) else NoneVal
  }

  /** DLIME's `balance_data()`: `None` before any explanation; afterwards
      the weighted share of the rows whose target equals the second target
      name. */
  function BalanceData(explained: bool, ws: seq<Weighted>, target: seq<Cell>, positive: Cell): (r: PyVal)
    requires |target| == |ws|
    ensures !explained ==> r == NoneVal && MetricDecorator(_ => Ok(r)).call([]) == Ok(NaN)
    ensures explained ==> r == NaN || (r.Num? && 0.0 <= r.r <= 1.0)
    ensures explained && r != NaN && (forall k :: 0 <= k < |ws| ==> !CellEq(target[k], positive)) ==> r == Num(0.0)
  {
    if explained then
      WeightedShare(seq(|target|, k requires 0 <= k < |target| => CellEq(target[k], positive)), WeightsOf(ws))
    else NoneVal
  }

  /** `accuracy()`: the weighted share of the neighbourhood on which the
      model and the surrogate agree about label 1; without a
      `weighted_instances` attribute it raises AttributeError. */
  function Accuracy(weighted: Option<seq<Weighted>>, modelProbs: seq<real>, surrogate: seq<real> -> real): (r: Result<PyVal, Error>)
    requires weighted.Some? ==> |modelProbs| == |weighted.value|
    ensures r.Err? <==> weighted.None?
    ensures r.Ok? ==> r.value == NaN || (r.value.Num? && 0.0 <= r.value.r <= 1.0)
    ensures r.Ok? && r.value != NaN
            && (forall k :: 0 <= k < |modelProbs| ==> (modelProbs[k] > 0.5 <==> surrogate(weighted.value[k].0) > 0.5))
            ==> r.value == Num(1.0)
  {
    match weighted
    case None => Err(AttributeError)
    case Some(ws) => Ok(WeightedShare(Agree(Above(modelProbs), Above(SurrogateOf(ws, surrogate))), WeightsOf(ws)))
  }

  /** `accuracy_global()`: the unweighted share of training rows on which
      model and surrogate agree. */
  function AccuracyGlobal(weighted: Option<seq<Weighted>>, modelProbs: seq<real>, surrogate: seq<real> -> real): (r: Result<PyVal, Error>)
    requires weighted.Some? ==> |modelProbs| == |weighted.value|
    ensures r.Err? <==> weighted.None?
    ensures r.Ok? ==> (r.value == NaN <==> modelProbs == [])
    ensures r.Ok? && r.value != NaN ==> r.value.Num? && 0.0 <= r.value.r <= 1.0
  {
    match weighted
    case None => Err(AttributeError)
    case Some(ws) => Ok(Share(Agree(Above(modelProbs), Above(SurrogateOf(ws, surrogate)))))
  }

  /** The older LIME explainer's `balance_explanation()`: unguarded, the
      plain share of the neighbourhood the surrogate labels 1, NaN for an
      empty neighbourhood. */
  function LegacyBalanceExplanation(weighted: Option<seq<Weighted>>, surrogate: seq<real> -> real): (r: Result<PyVal, Error>)
    ensures r.Err? <==> weighted.None?
    ensures r.Ok? ==> (r.value == NaN <==> weighted.value == [])
    ensures r.Ok? && r.value != NaN ==> r.value.Num? && 0.0 <= r.value.r <= 1.0
  {
    match weighted
    case None => Err(AttributeError)
    case Some(ws) => Ok(Share(Above(SurrogateOf(ws, surrogate))))
  }

  /** What `explain_instance` leaves behind for the metrics: the explained
      instance, whether an explanation exists, and the weighted
      neighbourhood over the (encoded) training rows. */
  class Neighbourhood {
    const train: seq<seq<real>>
    const kernel: (seq<real>, seq<real>) -> KernelWeight   // kernel(distance(x, y))
    var explained: bool                                    // hasattr(self, 'explanation')
    var instance: seq<real>
    var weighted: Option<seq<Weighted>>                    // None: no `weighted_instances` attribute yet

    ghost predicate Valid()
      reads this
    {
      weighted.Some? <==> explained
    }

    constructor (train: seq<seq<real>>, kernel: (seq<real>, seq<real>) -> KernelWeight)
      ensures Valid() && this.train == train && this.kernel == kernel
      ensures !explained && weighted.None?
    {
      this.train := train;
      this.kernel := kernel;
      explained := false;
      instance := [];
      weighted := None;
    }

    /** `get_weighted_instances()` on the current state. */
    function GetWeightedInstances(): (ws: seq<Weighted>)
      reads this
      ensures |ws| == if explained then |train| else 0
      ensures forall k :: 0 <= k < |ws| ==> ws[k].0 == train[k] && ws[k].1 == kernel(instance, train[k])
    {
      WeightedInstances(explained, instance, train, kernel)
    }

    /** The bookkeeping of `explain_instance(instance)`: the explanation and
        the instance are stored, then the neighbourhood is weighted around
        the instance. */
    method ExplainInstance(x: seq<real>)
      requires Valid()
      modifies this
      ensures Valid() && explained && instance == x
      ensures weighted == Some(WeightedInstances(true, x, train, kernel))
      ensures Coverage(weighted).Ok? <==> train != []
      ensures CoverageAbsolute(weighted).Ok?
    {
      explained := true;
      instance := x;
      weighted := Some(GetWeightedInstances());
    }
  }
}

