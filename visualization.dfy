/** The metric normaliser and the metric selection behind the plots of
    astrapia/visualization.py. Metric values are reals; the plotly figures
    themselves are not part of this model. */
module Visualization {
  import opened Values
  import opened Text
  import opened Utils

  type Metrics = map<string, real>

  predicate InUnit(v: real)
  {
    0.0 <= v <= 1.0
  }

  function Abs(x: real): (r: real)
    ensures r >= 0.0 && (r == x || r == -x)
  {
    if x < 0.0 then -x else x
  }

  /** `normalize_balance(metric, value)`: a balance-related metric is
      renamed with a `*` and rescaled so that values closer to 0.5 are
      higher; a value in [0, 1] stays in [0, 1] and only 0.5 reaches 1.
      Other metrics pass through unchanged. */
  function NormalizeBalance(metric: string, value: real): (r: (string, real))
    ensures Contains(metric, "balance") ==> r.0 == metric + "*"
    ensures !Contains(metric, "balance") ==> r == (metric, value)
    ensures InUnit(value) ==> InUnit(r.1)
    ensures Contains(metric, "balance") ==> (r.1 == 1.0 <==> value == 0.5)
  {
    if Contains(metric, "balance") then (metric + "*", 1.0 - 2.0 * Abs(value - 0.5)) else (metric, value)
  }

  /** Of two balance values, the one closer to 0.5 is rescaled higher. */
  lemma BalanceCloserIsHigher(metric: string, a: real, b: real)
    requires Contains(metric, "balance") && Abs(a - 0.5) <= Abs(b - 0.5)
    ensures NormalizeBalance(metric, a).1 >= NormalizeBalance(metric, b).1
  {
  }

  /** The explainer names of the metric dictionary, in its order. */
  predicate KeyOrder(names: seq<string>, dicts: map<string, Metrics>)
  {
    Distinct(names) && (forall n :: n in names ==> n in dicts) && forall n :: n in dicts ==> n in names
  }

  /** Some explainer reports metric `m` with a value outside [0, 1]: the
      metric is not relative. */
  predicate IsCritical(dicts: map<string, Metrics>, m: string)
  {
    exists n :: n in dicts && m in dicts[n] && !InUnit(dicts[n][m])
  }

  /** The detection loops of `normalize`: the relevant metrics some
      explainer reports outside [0, 1]. */
  method CriticalMetrics(names: seq<string>, dicts: map<string, Metrics>, relevant: seq<string>)
    returns (critical: set<string>)
    requires KeyOrder(names, dicts)
    ensures forall m :: m in critical <==> m in relevant && IsCritical(dicts, m)
  {
    var found: seq<string> := [];
    for i := 0 to |names|
      invariant forall m :: m in found <==>
        m in relevant && exists k :: 0 <= k < i && m in dicts[names[k]] && !InUnit(dicts[names[k]][m])
    {
      var metrics := dicts[names[i]];
      for j := 0 to |relevant|
        invariant forall m :: m in found <==>
          (m in relevant && exists k :: 0 <= k < i && m in dicts[names[k]] && !InUnit(dicts[names[k]][m]))
          || (m in relevant[..j] && m in metrics && !InUnit(metrics[m]))
      {
        var metric := relevant[j];
        if metric in metrics && !InUnit(metrics[metric]) {
          found := found + [metric];
        }
      }
    }
    critical := set m | m in found;
    forall m | m in relevant && IsCritical(dicts, m) ensures m in critical {
      var n :| n in dicts && m in dicts[n] && !InUnit(dicts[n][m]);
      var k :| 0 <= k < |names| && names[k] == n;
    }
  }

  /** `current_values`: the explainers reporting `m` with their values, in
      dictionary order. */
  function Current(names: seq<string>, dicts: map<string, Metrics>, m: string): (cv: seq<(string, real)>)
    requires forall n :: n in names ==> n in dicts
  {
    if names == [] then []
    else
      var init, n := names[..|names| - 1], names[|names| - 1];
      assert forall x :: x in init ==> x in names;
      var cv := Current(init, dicts, m);
      if m in dicts[n] then cv + [(n, dicts[n][m])] else cv
  }

  /** `current_values` holds exactly the explainers reporting `m`, each
      with its value, each once when the names are distinct. */
  lemma {:induction false} CurrentSpec(names: seq<string>, dicts: map<string, Metrics>, m: string)
    requires forall n :: n in names ==> n in dicts
    ensures forall k :: 0 <= k < |Current(names, dicts, m)| ==>
              var (n, v) := Current(names, dicts, m)[k]; n in names && m in dicts[n] && v == dicts[n][m]
    ensures forall n :: n in names && m in dicts[n] ==>
              exists k :: 0 <= k < |Current(names, dicts, m)| && Current(names, dicts, m)[k].0 == n
    ensures Distinct(names) ==> forall a, b :: 0 <= a < b < |Current(names, dicts, m)| ==>
              Current(names, dicts, m)[a].0 != Current(names, dicts, m)[b].0
  {
    if names != [] {
      var init, n := names[..|names| - 1], names[|names| - 1];
      assert forall x :: x in init ==> x in names;
      CurrentSpec(init, dicts, m);
      var prev := Current(init, dicts, m);
      var cv := Current(names, dicts, m);
      assert forall x :: x in names && x != n ==> x in init by {
        forall x | x in names && x != n ensures x in init {
          var i :| 0 <= i < |names| && names[i] == x;
          assert i < |names| - 1 && init[i] == x;
        }
      }
      if Distinct(names) {
        assert n !in init by {
          forall i | 0 <= i < |init| ensures init[i] != n {
            assert init[i] == names[i];
          }
        }
      }
      if m in dicts[n] {
        assert cv == prev + [(n, dicts[n][m])];
        assert forall k :: 0 <= k < |prev| ==> cv[k] == prev[k];
        assert cv[|prev|].0 == n && n in names;
        forall x | x in names && m in dicts[x] ensures exists k :: 0 <= k < |cv| && cv[k].0 == x {
          if x == n {
            assert cv[|prev|].0 == x;
          } else {
            var k :| 0 <= k < |prev| && prev[k].0 == x;
            assert cv[k].0 == x;
          }
        }
      }
    }
  }

  /** With distinct explainer names, at least two values are collected
      exactly when two different explainers report the metric. */
  lemma CurrentCount(names: seq<string>, dicts: map<string, Metrics>, m: string)
    requires KeyOrder(names, dicts)
    ensures |Current(names, dicts, m)| > 1 <==>
            exists a, b :: a in dicts && b in dicts && a != b && m in dicts[a] && m in dicts[b]
  {
    var cv := Current(names, dicts, m);
    CurrentSpec(names, dicts, m);
    assert Distinct(names);
    if |cv| > 1 {
      assert cv[0].0 != cv[1].0;
    }
    if exists a, b :: a in dicts && b in dicts && a != b && m in dicts[a] && m in dicts[b] {
      var a, b :| a in dicts && b in dicts && a != b && m in dicts[a] && m in dicts[b];
      var ka :| 0 <= ka < |cv| && cv[ka].0 == a;
      var kb :| 0 <= kb < |cv| && cv[kb].0 == b;
      assert ka != kb;
    }
  }

  /** `max([v for _, v in current_values])`. */
  function Largest(cv: seq<(string, real)>): (hi: real)
    requires cv != []
    ensures forall k :: 0 <= k < |cv| ==> cv[k].1 <= hi
    ensures exists k :: 0 <= k < |cv| && cv[k].1 == hi
  {
    if |cv| == 1 then cv[0].1
    else
      var rest := Largest(cv[1..]);
      assert forall k :: 1 <= k < |cv| ==> cv[k] == cv[1..][k - 1];
      if cv[0].1 >= rest then cv[0].1 else rest
  }

  /** `min([v for _, v in current_values])`. */
  function Smallest(cv: seq<(string, real)>): (lo: real)
    requires cv != []
    ensures forall k :: 0 <= k < |cv| ==> lo <= cv[k].1
    ensures exists k :: 0 <= k < |cv| && cv[k].1 == lo
  {
    if |cv| == 1 then cv[0].1
    else
      var rest := Smallest(cv[1..]);
      assert forall k :: 1 <= k < |cv| ==> cv[k] == cv[1..][k - 1];
      if cv[0].1 <= rest then cv[0].1 else rest
  }

  /** Min-max scaling of a value between the bounds; 1 when all values
      are equal. */
  function Scaled(v: real, lo: real, hi: real): (r: real)
    requires lo <= v <= hi
    ensures InUnit(r)
    ensures lo < hi ==> (r == 0.0 <==> v == lo) && (r == 1.0 <==> v == hi)
  {
    if hi == lo then 1.0
    else
      assert (v - lo) / (hi - lo) * (hi - lo) == v - lo;
      (v - lo) / (hi - lo)
  }

  /** The entry `normalize` writes into the result of explainer `n` for
      metric `m`, if any: a non-relative metric with at least two values is
      min-max scaled under `m*`, one with a single value is dropped, and a
      relative one goes through `normalize_balance`. Every value written
      lies in [0, 1]. */
  function Entry(names: seq<string>, dicts: map<string, Metrics>, m: string, n: string): (e: Option<(string, real)>)
    requires KeyOrder(names, dicts) && n in dicts
    ensures m !in dicts[n] ==> e.None?
    ensures e.Some? ==> InUnit(e.value.1)
    ensures IsCritical(dicts, m) && m in dicts[n] ==> (e.Some? <==> |Current(names, dicts, m)| > 1)
    ensures e.Some? && IsCritical(dicts, m) ==> e.value.0 == m + "*"
    ensures !IsCritical(dicts, m) && m in dicts[n] ==> e == Some(NormalizeBalance(m, dicts[n][m]))
  {
    if m !in dicts[n] then None
    else if IsCritical(dicts, m) then
      var cv := Current(names, dicts, m);
      if |cv| <= 1 then None
      else
        CurrentSpec(names, dicts, m);
        var k :| 0 <= k < |cv| && cv[k].0 == n;
        Some((m + "*", Scaled(dicts[n][m], Smallest(cv), Largest(cv))))
    else Some(NormalizeBalance(m, dicts[n][m]))
  }

  /** Explainer `n` reporting a non-relative metric with several values
      gets its min-max scaled value under `m*`. */
  lemma EntryRescaled(names: seq<string>, dicts: map<string, Metrics>, m: string, n: string)
    requires KeyOrder(names, dicts) && n in dicts && m in dicts[n] && IsCritical(dicts, m)
    requires |Current(names, dicts, m)| > 1
    ensures var cv := Current(names, dicts, m);
            Smallest(cv) <= dicts[n][m] <= Largest(cv)
            && Entry(names, dicts, m, n) == Some((m + "*", Scaled(dicts[n][m], Smallest(cv), Largest(cv))))
  {
    CurrentSpec(names, dicts, m);
    var cv := Current(names, dicts, m);
    var k :| 0 <= k < |cv| && cv[k].0 == n;
  }

  function Apply(metrics: Metrics, e: Option<(string, real)>): (r: Metrics)
    ensures e.None? ==> r == metrics
    ensures e.Some? ==> r.Keys == metrics.Keys + {e.value.0} && r[e.value.0] == e.value.1
    ensures forall k :: k in metrics && (e.None? || k != e.value.0) ==> k in r && r[k] == metrics[k]
  {
    if e.None? then metrics else metrics[e.value.0 := e.value.1]
  }

  /** The result after the entries of metric `m` were written for the
      explainers in `who`. */
  function Updated(res: map<string, Metrics>, names: seq<string>, dicts: map<string, Metrics>, m: string, who: seq<string>)
    : (r: map<string, Metrics>)
    requires KeyOrder(names, dicts) && res.Keys == dicts.Keys
    ensures r.Keys == res.Keys
  {
    map n | n in res :: if n in who then Apply(res[n], Entry(names, dicts, m, n)) else res[n]
  }

  /** One metric of the main loop of `normalize`. */
  function Step(res: map<string, Metrics>, names: seq<string>, dicts: map<string, Metrics>, m: string)
    : (r: map<string, Metrics>)
    requires KeyOrder(names, dicts) && res.Keys == dicts.Keys
    ensures r.Keys == res.Keys
  {
    map n | n in res :: Apply(res[n], Entry(names, dicts, m, n))
  }

  /** `normalize(dicts, relevant_metrics)`: one (possibly empty) metric
      dictionary per explainer, the metrics processed in order. */
  function Normalized(names: seq<string>, dicts: map<string, Metrics>, relevant: seq<string>): (res: map<string, Metrics>)
    requires KeyOrder(names, dicts)
    ensures res.Keys == dicts.Keys
  {
    if relevant == [] then map n | n in dicts :: map[]
    else Step(Normalized(names, dicts, relevant[..|relevant| - 1]), names, dicts, relevant[|relevant| - 1])
  }

  predicate AllInUnit(res: map<string, Metrics>)
  {
    forall n, k :: n in res && k in res[n] ==> InUnit(res[n][k])
  }

  /** Every value `normalize` returns lies in [0, 1]: that is what lets
      all metrics share one bar chart. */
  lemma {:induction false} NormalizedInUnit(names: seq<string>, dicts: map<string, Metrics>, relevant: seq<string>)
    requires KeyOrder(names, dicts)
    ensures AllInUnit(Normalized(names, dicts, relevant))
  {
    if relevant != [] {
      var init := relevant[..|relevant| - 1];
      NormalizedInUnit(names, dicts, init);
      var prev := Normalized(names, dicts, init);
      var res := Normalized(names, dicts, relevant);
      forall n, k | n in res && k in res[n] ensures InUnit(res[n][k]) {
        var e := Entry(names, dicts, relevant[|relevant| - 1], n);
        assert res[n] == Apply(prev[n], e);
        if e.Some? && k == e.value.0 {
          assert res[n][k] == e.value.1 && InUnit(e.value.1);
        } else {
          assert k in prev[n] && res[n][k] == prev[n][k];
        }
      }
    }
  }

  /** A non-relative metric that only one explainer reports leaves the
      result as it was: it is dropped from the chart. */
  lemma SingleValueDropped(res: map<string, Metrics>, names: seq<string>, dicts: map<string, Metrics>, m: string)
    requires KeyOrder(names, dicts) && res.Keys == dicts.Keys
    requires IsCritical(dicts, m) && forall a, b :: a in dicts && b in dicts && m in dicts[a] && m in dicts[b] ==> a == b
    ensures Step(res, names, dicts, m) == res
  {
    CurrentCount(names, dicts, m);
    StepUnchanged(res, names, dicts, m);
  }

  lemma UpdatedNext(res: map<string, Metrics>, names: seq<string>, dicts: map<string, Metrics>, m: string,
                    who: seq<string>, n: string)
    requires KeyOrder(names, dicts) && res.Keys == dicts.Keys && n in res && n !in who
    ensures Updated(res, names, dicts, m, who + [n])
            == Updated(res, names, dicts, m, who)[n := Apply(res[n], Entry(names, dicts, m, n))]
  {
  }

  lemma UpdatedAll(res: map<string, Metrics>, names: seq<string>, dicts: map<string, Metrics>, m: string, who: seq<string>)
    requires KeyOrder(names, dicts) && res.Keys == dicts.Keys
    requires forall n :: n in res && m in dicts[n] ==> n in who
    ensures Updated(res, names, dicts, m, who) == Step(res, names, dicts, m)
  {
  }

  /** The explainer names of `current_values`. */
  function Firsts(cv: seq<(string, real)>): (r: seq<string>)
    ensures |r| == |cv| && forall k :: 0 <= k < |cv| ==> r[k] == cv[k].0
  {
    seq(|cv|, k requires 0 <= k < |cv| => cv[k].0)
  }

  /** A non-relative metric with at most one value writes nothing. */
  lemma StepUnchanged(res: map<string, Metrics>, names: seq<string>, dicts: map<string, Metrics>, m: string)
    requires KeyOrder(names, dicts) && res.Keys == dicts.Keys
    requires IsCritical(dicts, m) && |Current(names, dicts, m)| <= 1
    ensures Step(res, names, dicts, m) == res
  {
  }

  /** The loop collecting `current_values`. */
  method CollectCurrent(names: seq<string>, dicts: map<string, Metrics>, m: string) returns (current: seq<(string, real)>)
    requires forall n :: n in names ==> n in dicts
    ensures current == Current(names, dicts, m)
  {
    current := [];
    for i := 0 to |names|
      invariant current == Current(names[..i], dicts, m)
    {
      assert names[..i + 1][..i] == names[..i];
      var metrics := dicts[names[i]];
      if m in metrics {
        current := current + [(names[i], metrics[m])];
      }
    }
    assert names[..|names|] == names;
  }

  /** The `i`-th collected value belongs to an explainer not yet visited,
      and reporting metric `m`. */
  lemma CurrentNext(names: seq<string>, dicts: map<string, Metrics>, m: string, i: nat)
    requires KeyOrder(names, dicts) && i < |Current(names, dicts, m)|
    ensures var cv := Current(names, dicts, m);
            cv[i].0 in dicts && m in dicts[cv[i].0] && cv[i].1 == dicts[cv[i].0][m]
            && cv[i].0 !in Firsts(cv[..i]) && Firsts(cv[..i + 1]) == Firsts(cv[..i]) + [cv[i].0]
  {
    var cv := Current(names, dicts, m);
    CurrentSpec(names, dicts, m);
    var done := Firsts(cv[..i]);
    forall k | 0 <= k < i
      ensures done[k] != cv[i].0
    {
      assert cv[k].0 != cv[i].0;
    }
    assert Firsts(cv[..i + 1]) == done + [cv[i].0];
  }

  lemma RescaleStep(res0: map<string, Metrics>, names: seq<string>, dicts: map<string, Metrics>, m: string,
                    i: nat, res: map<string, Metrics>)
    requires KeyOrder(names, dicts) && res0.Keys == dicts.Keys && IsCritical(dicts, m)
    requires |Current(names, dicts, m)| > 1 && i < |Current(names, dicts, m)|
    requires res == Updated(res0, names, dicts, m, Firsts(Current(names, dicts, m)[..i]))
    ensures var cv := Current(names, dicts, m);
            var (name, value) := cv[i];
            name in res && Smallest(cv) <= value <= Largest(cv)
            && res[name := res[name][m + "*" := Scaled(value, Smallest(cv), Largest(cv))]]
               == Updated(res0, names, dicts, m, Firsts(cv[..i + 1]))
  {
    var cv := Current(names, dicts, m);
    CurrentNext(names, dicts, m, i);
    var (name, value) := cv[i];
    EntryRescaled(names, dicts, m, name);
    UpdatedNext(res0, names, dicts, m, Firsts(cv[..i]), name);
  }

  /** The min-max loop of a non-relative metric with several values. */
  method Rescale(res0: map<string, Metrics>, names: seq<string>, dicts: map<string, Metrics>, m: string,
                 current: seq<(string, real)>) returns (res: map<string, Metrics>)
    requires KeyOrder(names, dicts) && res0.Keys == dicts.Keys && IsCritical(dicts, m)
    requires current == Current(names, dicts, m) && |current| > 1
    ensures res == Step(res0, names, dicts, m)
  {
    var hi, lo := Largest(current), Smallest(current);
    res := res0;
    for i := 0 to |current|
      invariant res == Updated(res0, names, dicts, m, Firsts(current[..i]))
    {
      var (name, value) := current[i];
      RescaleStep(res0, names, dicts, m, i, res);
      res := res[name := res[name][m + "*" := Scaled(value, lo, hi)]];
    }
    assert current[..|current|] == current;
    CurrentSpec(names, dicts, m);
    forall n | n in res0 && m in dicts[n] ensures n in Firsts(current) {
      var k :| 0 <= k < |current| && current[k].0 == n;
      assert Firsts(current)[k] == n;
    }
    UpdatedAll(res0, names, dicts, m, Firsts(current));
  }

  lemma RebalanceStep(res0: map<string, Metrics>, names: seq<string>, dicts: map<string, Metrics>, m: string,
                      i: nat, res: map<string, Metrics>)
    requires KeyOrder(names, dicts) && res0.Keys == dicts.Keys && !IsCritical(dicts, m) && i < |names|
    requires res == Updated(res0, names, dicts, m, names[..i])
    ensures names[i] in res
    ensures m !in dicts[names[i]] ==> res == Updated(res0, names, dicts, m, names[..i + 1])
    ensures m in dicts[names[i]] ==>
              var (metric, value) := NormalizeBalance(m, dicts[names[i]][m]);
              res[names[i] := res[names[i]][metric := value]] == Updated(res0, names, dicts, m, names[..i + 1])
  {
    assert names[..i + 1] == names[..i] + [names[i]];
    assert names[i] !in names[..i] by {
      forall k | 0 <= k < i ensures names[k] != names[i] { }
    }
    UpdatedNext(res0, names, dicts, m, names[..i], names[i]);
  }

  /** The `normalize_balance` loop of a relative metric. */
  method Rebalance(res0: map<string, Metrics>, names: seq<string>, dicts: map<string, Metrics>, m: string)
    returns (res: map<string, Metrics>)
    requires KeyOrder(names, dicts) && res0.Keys == dicts.Keys && !IsCritical(dicts, m)
    ensures res == Step(res0, names, dicts, m)
  {
    res := res0;
    for i := 0 to |names|
      invariant res == Updated(res0, names, dicts, m, names[..i])
    {
      RebalanceStep(res0, names, dicts, m, i, res);
      if m in dicts[names[i]] {
        var (metric, value) := NormalizeBalance(m, dicts[names[i]][m]);
        res := res[names[i] := res[names[i]][metric := value]];
      }
    }
    assert names[..|names|] == names;
    UpdatedAll(res0, names, dicts, m, names);
  }

  /** The body of the main loop of `normalize` for one relevant metric. */
  method NormalizeMetric(res0: map<string, Metrics>, names: seq<string>, dicts: map<string, Metrics>, m: string,
                         critical: bool) returns (res: map<string, Metrics>)
    requires KeyOrder(names, dicts) && res0.Keys == dicts.Keys && critical == IsCritical(dicts, m)
    ensures res == Step(res0, names, dicts, m)
  {
    if critical {
      var current := CollectCurrent(names, dicts, m);
      if |current| > 1 {
        res := Rescale(res0, names, dicts, m, current);
      } else {
        StepUnchanged(res0, names, dicts, m);
        res := res0;
      }
    } else {
      res := Rebalance(res0, names, dicts, m);
    }
  }

  /** `normalize(dicts, relevant_metrics)`. */
  method Normalize(names: seq<string>, dicts: map<string, Metrics>, relevant: seq<string>) returns (res: map<string, Metrics>)
    requires KeyOrder(names, dicts)
    ensures res == Normalized(names, dicts, relevant)
  {
    res := map n | n in dicts :: map[];
    var critical := CriticalMetrics(names, dicts, relevant);
    for j := 0 to |relevant|
      invariant res == Normalized(names, dicts, relevant[..j])
    {
      assert relevant[..j + 1][..j] == relevant[..j];
      res := NormalizeMetric(res, names, dicts, relevant[j], relevant[j] in critical);
    }
    assert relevant[..|relevant|] == relevant;
  }

  /** `fill_in_value(metric_dict, metric, numeric)`: a dash for a metric
      the explainer does not report, the value itself for a non-numeric
      table, and its rounded form (`round`) otherwise. */
  function FillInValue(metrics: map<string, PyVal>, metric: string, numeric: bool, round: PyVal -> PyVal): (r: PyVal)
    ensures metric !in metrics ==> r == Str("-")
    ensures metric in metrics && !numeric ==> r == metrics[metric]
    ensures metric in metrics && numeric ==> r == round(metrics[metric])
  {
    if metric in metrics then (if numeric then round(metrics[metric]) else metrics[metric]) else Str("-")
  }

  /** The metrics that at least two explainers report, in the given
      order. */
  function Shared(names: seq<string>, dicts: map<string, Metrics>, relevant: seq<string>): (r: seq<string>)
    requires forall n :: n in names ==> n in dicts
    ensures forall m :: m in r <==> m in relevant && |Current(names, dicts, m)| > 1
  {
    if relevant == [] then []
    else
      var init, m := relevant[..|relevant| - 1], relevant[|relevant| - 1];
      assert forall x :: x in init ==> x in relevant;
      var r := Shared(names, dicts, init);
      if |Current(names, dicts, m)| > 1 then r + [m] else r
  }

  /** Filtering keeps a sorted list sorted. */
  lemma {:induction false} SharedSorted(names: seq<string>, dicts: map<string, Metrics>, relevant: seq<string>)
    requires forall n :: n in names ==> n in dicts
    requires StrictlySorted(relevant)
    ensures StrictlySorted(Shared(names, dicts, relevant))
  {
    if relevant != [] {
      var init, m := relevant[..|relevant| - 1], relevant[|relevant| - 1];
      assert StrictlySorted(init);
      SharedSorted(names, dicts, init);
      var r := Shared(names, dicts, init);
      forall x | x in r ensures StrLess(x, m) {
        var a :| 0 <= a < |init| && init[a] == x;
      }
    }
  }

  /** The selection of `print_metrics` over all explainers: the plot kind
      is checked first (AssertionError); the metric names of all averaged
      results are sorted; with `show_metric_with_one_value` false only the
      metrics of at least two explainers stay. */
  method SelectMetrics(averaged: map<string, Metrics>, names: seq<string>, plot: string, showOne: bool)
    returns (r: Result<seq<string>, Error>)
    requires KeyOrder(names, averaged)
    ensures r.Err? <==> plot != "bar" && plot != "table"
    ensures r.Err? ==> r.error == AssertionError
    ensures r.Ok? ==> StrictlySorted(r.value)
    ensures r.Ok? ==> forall m :: m in r.value <==>
              (exists n :: n in averaged && m in averaged[n])
              && (showOne || exists a, b :: a in averaged && b in averaged && a != b && m in averaged[a] && m in averaged[b])
  {
    if plot != "bar" && plot != "table" {
      return Err(AssertionError);
    }
    var relevant := SortedNames(set n, m | n in averaged && m in averaged[n] :: m);
    if !showOne {
      var filtered: seq<string> := [];
      for j := 0 to |relevant|
        invariant filtered == Shared(names, averaged, relevant[..j])
      {
        assert relevant[..j + 1][..j] == relevant[..j];
        var metric := relevant[j];
        var count := 0;
        for i := 0 to |names|
          invariant count == |Current(names[..i], averaged, metric)|
        {
          assert names[..i + 1][..i] == names[..i];
          if metric in averaged[names[i]] {
            count := count + 1;
          }
        }
        assert names[..|names|] == names;
        if count > 1 {
          filtered := filtered + [metric];
        }
      }
      assert relevant[..|relevant|] == relevant;
      SharedSorted(names, averaged, relevant);
      forall m ensures |Current(names, averaged, m)| > 1 <==>
                       exists a, b :: a in averaged && b in averaged && a != b && m in averaged[a] && m in averaged[b] {
        CurrentCount(names, averaged, m);
      }
      relevant := filtered;
    }
    r := Ok(relevant);
  }
}
