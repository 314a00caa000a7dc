/** `ExplainerComparator` of astrapia/comparator.py: explainers registered
    under names, every explainer run over every row of a table, and the
    per-row metrics, explanations and averages kept per explainer. */
module Comparator {
  import opened Values
  import opened Text
  import opened Frames
  import opened Objects
  import opened Transfer
  import opened ExplainerBase
  import opened Aggregation
  import opened ComparatorRuns

  /** The sampler classes `explain_representative` knows by name. */
  datatype SamplerKind = RandomSampler | SPLimeSampler

  /** The `sampler` argument: a name, an instance of a Sampler subclass, or
      any other value. */
  datatype SamplerArg = SamplerName(name: string) | SamplerInstance | OtherValue

  /** Resolving the `sampler` argument. An instance is called, which raises
      TypeError since samplers are not callable; an unknown name raises
      NameError; any other value reaches the string concatenation of the
      NameError message first, which raises TypeError. */
  function ResolveSampler(sampler: SamplerArg): (r: Result<SamplerKind, Error>)
    ensures r == Ok(RandomSampler) <==> sampler == SamplerName("random")
    ensures r == Ok(SPLimeSampler) <==> sampler == SamplerName("splime")
    ensures r == Err(NameError) <==> sampler.SamplerName? && sampler.name !in {"random", "splime"}
    ensures r == Err(TypeError) <==> !sampler.SamplerName?
  {
    match sampler
    case SamplerInstance => Err(TypeError)
    case SamplerName(s) =>
      if s == "random" then Ok(RandomSampler)
      else if s == "splime" then Ok(SPLimeSampler)
      else Err(NameError)
    case OtherValue => Err(TypeError)
  }

  /** The body of the row loop for one row: `explain_instance`, then the
      metric report, taken after inference when `inferred_metrics` is set. */
  method ExplainRow(reg: Registry, e: Explainer, row: Frame, inferredMetrics: bool) returns (r: Result<(PyVal, Metrics), Error>)
    modifies e`state, e`attrs
    ensures e.explainFn(old(e.state), row).Err? ==> r == Err(e.explainFn(old(e.state), row).error)
    ensures r.Ok? ==> RowStep(reg.rules, inferredMetrics, e, row, old(e.state), old(e.attrs), e.state, e.attrs, r.value.1, r.value.0)
    ensures r.Err? ==> StepFails(reg.rules, inferredMetrics, e, row, old(e.state), old(e.attrs), r.error)
  {
    var explanation := e.ExplainInstance(row);
    if explanation.Err? {
      return Err(explanation.error);
    }
    var report := Report(reg, e, Some("metric"), inferredMetrics);
    if report.Err? {
      return Err(report.error);
    }
    r := Ok((explanation.value, report.value));
  }

  /** One pass of the row loop, over row `i`: the row goes through
      `ExplainRow` and its report is added into the sums, which extends the
      run, started in `state0` and `attrs0`, by the state the row leaves the
      explainer in; or the row raises, and then the rows raise from where
      the run started. */
  method NextRow(reg: Registry, e: Explainer, data: Frame, inferredMetrics: bool, i: nat, sums: Metrics,
                 rowMetrics: map<string, Metrics>, rowExplanations: map<string, PyVal>, ghost rows: seq<Metrics>,
                 ghost run: Run, ghost state0: PyVal, ghost attrs0: Attrs)
    returns (r: Result<(Metrics, map<string, Metrics>, map<string, PyVal>), Error>, ghost rows': seq<Metrics>, ghost run': Run)
    requires i < |data.rows|
    requires RowsSoFar(sums, rowMetrics, rowExplanations, rows, RowKey, i)
    requires Ran(reg.rules, inferredMetrics, e, data, i, run, rowMetrics, rowExplanations)
    requires StartsAt(run, state0, attrs0) && e.state == run.states[i] && e.attrs == run.attrs[i]
    modifies e`state, e`attrs
    ensures r.Ok? ==> RowsSoFar(r.value.0, r.value.1, r.value.2, rows', RowKey, i + 1)
    ensures r.Ok? ==> Ran(reg.rules, inferredMetrics, e, data, i + 1, run', r.value.1, r.value.2)
    ensures r.Ok? ==> StartsAt(run', state0, attrs0) && e.state == run'.states[i + 1] && e.attrs == run'.attrs[i + 1]
    ensures r.Err? ==> RowsRaise(reg.rules, inferredMetrics, e, data, state0, attrs0, r.error)
  {
    rows', run' := rows, run;
    var step := ExplainRow(reg, e, ILocRow(data, i), inferredMetrics);
    if step.Err? {
      StepRaises(reg.rules, inferredMetrics, e, data, i, run, rowMetrics, rowExplanations, sums, rows, step.error);
      return Err(step.error), rows', run';
    }
    var tally := Tally(sums, step.value.1);
    if tally.Err? {
      TallyRaises(reg.rules, inferredMetrics, e, data, i, run, rowMetrics, rowExplanations, sums, rows,
                  e.state, e.attrs, step.value.1, step.value.0, tally.error);
      return Err(tally.error), rows', run';
    }
    RowKeyInjective();
    RowsStep(sums, rowMetrics, rowExplanations, rows, RowKey, i, step.value.1, step.value.0, tally.value);
    RanStep(reg.rules, inferredMetrics, e, data, i, run, rowMetrics, rowExplanations, e.state, e.attrs, step.value.1, step.value.0);
    r := Ok((tally.value, rowMetrics[RowKey(i) := step.value.1], rowExplanations[RowKey(i) := step.value.0]));
    rows', run' := rows + [step.value.1], Run(run.states + [e.state], run.attrs + [e.attrs]);
  }

  /** The inner loop of `explain_instances` for one explainer: each row
      goes through `ExplainRow` and its report is added into the sums; then
      the sums are averaged over all rows. `run` is the ghost record of the
      states the explainer passes through. The loop raises exactly when
      some row raises: in its step, or when its report is added. */
  method ExplainRows(reg: Registry, e: Explainer, data: Frame, inferredMetrics: bool)
    returns (r: Result<(Metrics, map<string, Metrics>, map<string, PyVal>), Error>, ghost run: Run)
    requires WellFormed(data)
    modifies e`state, e`attrs
    ensures r.Ok? ==> Aggregated(r.value.0, r.value.1, r.value.2, RowKey, |data.rows|)
    ensures r.Ok? ==> Ran(reg.rules, inferredMetrics, e, data, |data.rows|, run, r.value.1, r.value.2)
    ensures r.Ok? ==> StartsAt(run, old(e.state), old(e.attrs)) && EndsAt(run, e.state, e.attrs)
    ensures r.Ok? ==> forall err :: !RowsRaise(reg.rules, inferredMetrics, e, data, old(e.state), old(e.attrs), err)
    ensures r.Err? ==> RowsRaise(reg.rules, inferredMetrics, e, data, old(e.state), old(e.attrs), r.error)
  {
    var n := |data.rows|;
    var sums: Metrics := map[];
    var rowMetrics: map<string, Metrics> := map[];
    var rowExplanations: map<string, PyVal> := map[];
    ghost var rows: seq<Metrics> := [];
    run := Run([e.state], [e.attrs]);
    var i := 0;
    while i < n
      invariant 0 <= i <= n
      invariant RowsSoFar(sums, rowMetrics, rowExplanations, rows, RowKey, i)
      invariant Ran(reg.rules, inferredMetrics, e, data, i, run, rowMetrics, rowExplanations)
      invariant StartsAt(run, old(e.state), old(e.attrs))
      invariant e.state == run.states[i] && e.attrs == run.attrs[i]
    {
      var next;
      next, rows, run := NextRow(reg, e, data, inferredMetrics, i, sums, rowMetrics, rowExplanations, rows, run,
                                 old(e.state), old(e.attrs));
      if next.Err? {
        return Err(next.error), run;
      }
      sums, rowMetrics, rowExplanations := next.value.0, next.value.1, next.value.2;
      i := i + 1;
    }
    RowsDone(sums, rowMetrics, rowExplanations, rows, RowKey, n);
    forall err {
      RunExcludesRaise(reg.rules, inferredMetrics, e, data, run, rowMetrics, rowExplanations, err);
    }
    r := Ok((Averages(sums, n), rowMetrics, rowExplanations));
  }

  /** One explainer's turn in `explain_instances`: its rows are explained
      and its three tables are stored under its name, produced by a run
      from the state it had when its turn came. On an exception, which one
      of its rows raised, the tables are left as they were. */
  method ExplainOne(reg: Registry, e: Explainer, name: string, data: Frame, inferredMetrics: bool,
                    avg: map<string, Metrics>, mets: map<string, map<string, Metrics>>, exps: map<string, map<string, PyVal>>,
                    ghost explainers: map<string, Explainer>, ghost runs: map<string, Run>)
    returns (r: Result<(), Error>, avg': map<string, Metrics>, mets': map<string, map<string, Metrics>>,
             exps': map<string, map<string, PyVal>>, ghost run: Run)
    requires WellFormed(data) && AllAggregated(avg, mets, exps, RowKey, |data.rows|)
    requires name in explainers && explainers[name] == e
    modifies e`state, e`attrs
    ensures AllAggregated(avg', mets', exps', RowKey, |data.rows|)
    ensures forall x :: x in avg' ==> x in avg || x == name
    ensures forall x :: x in avg && x != name ==> x in avg' && avg'[x] == avg[x] && mets'[x] == mets[x] && exps'[x] == exps[x]
    ensures r.Err? ==> avg' == avg && mets' == mets && exps' == exps
    ensures r.Ok? ==> name in avg' && name in Recorded(reg.rules, inferredMetrics, explainers, data, runs[name := run], mets', exps')
    ensures r.Ok? ==> StartsAt(run, old(e.state), old(e.attrs)) && EndsAt(run, e.state, e.attrs)
    ensures r.Err? ==> RowsRaise(reg.rules, inferredMetrics, e, data, old(e.state), old(e.attrs), r.error)
    ensures forall x :: x in explainers && explainers[x] != e ==> States(explainers)[x] == old(States(explainers))[x]
  {
    var res;
    res, run := ExplainRows(reg, e, data, inferredMetrics);
    if res.Err? {
      return Err(res.error), avg, mets, exps, run;
    }
    AllAggregatedStep(avg, mets, exps, RowKey, |data.rows|, name, res.value.0, res.value.1, res.value.2);
    r := Ok(());
    avg', mets', exps' := avg[name := res.value.0], mets[name := res.value.1], exps[name := res.value.2];
  }

  /** The tables of one finished explainer turn, on values: turn `j` stored
      the tables its run produced. The tables then hold exactly the first
      `j + 1` names, and each one's tables are still produced by its
      recorded run. */
  lemma NextTurn(rules: seq<Rule>, inferredMetrics: bool, names: seq<string>, j: nat, explainers: map<string, Explainer>,
                 data: Frame, starts: map<string, (PyVal, Attrs)>, avg: map<string, Metrics>,
                 mets: map<string, map<string, Metrics>>, exps: map<string, map<string, PyVal>>, runs: map<string, Run>,
                 run: Run, avg': map<string, Metrics>,
                 mets': map<string, map<string, Metrics>>, exps': map<string, map<string, PyVal>>)
    requires Distinct(names) && j < |names| && explainers.Keys <= starts.Keys
    requires (forall x :: x in avg <==> x in names[..j]) && runs.Keys == avg.Keys
    requires avg.Keys <= Recorded(rules, inferredMetrics, explainers, data, runs, mets, exps)
    requires avg'.Keys == mets'.Keys == exps'.Keys
    requires forall x :: x in avg' ==> x in avg || x == names[j]
    requires forall x :: x in avg && x != names[j] ==> x in avg' && avg'[x] == avg[x] && mets'[x] == mets[x] && exps'[x] == exps[x]
    requires names[j] in avg' && names[j] in Recorded(rules, inferredMetrics, explainers, data, runs[names[j] := run], mets', exps')
    ensures (forall x :: x in avg' <==> x in names[..j + 1]) && runs[names[j] := run].Keys == avg'.Keys
    ensures avg'.Keys <= Recorded(rules, inferredMetrics, explainers, data, runs[names[j] := run], mets', exps')
  {
    KeysTurn(names, j, avg, runs, avg', runs[names[j] := run]);
    RecordedStep(rules, inferredMetrics, explainers, data, runs, avg, mets, exps, names[j], run, avg', mets', exps');
  }

  /** The turn of the next explainer in insertion order: on success its
      tables are stored, produced by its recorded run; on an exception,
      which one of its rows raised from the state its turn started in,
      nothing is stored. Only this explainer changes, so an explainer
      registered under one name starts from, or keeps, the state `starts`
      gives it. */
  method ExplainNext(reg: Registry, names: seq<string>, j: nat, explainers: map<string, Explainer>, data: Frame,
                     inferredMetrics: bool, avg: map<string, Metrics>, mets: map<string, map<string, Metrics>>,
                     exps: map<string, map<string, PyVal>>, ghost runs: map<string, Run>,
                     ghost starts: map<string, (PyVal, Attrs)>, ghost rules: seq<Rule>)
    returns (r: Result<(), Error>, avg': map<string, Metrics>, mets': map<string, map<string, Metrics>>,
             exps': map<string, map<string, PyVal>>, ghost runs': map<string, Run>)
    requires reg.rules == rules && Distinct(names)
    requires (forall k :: 0 <= k < |names| ==> names[k] in explainers) && WellFormed(data) && j < |names|
    requires explainers.Keys <= starts.Keys
    requires Progress(rules, inferredMetrics, names, explainers, data, starts, avg, mets, exps, runs, j)
    requires EndedIn(explainers, runs, States(explainers)) && WaitingIn(names, explainers, starts, States(explainers), j)
    modifies explainers[names[j]]
    ensures r.Ok? ==> Progress(rules, inferredMetrics, names, explainers, data, starts, avg', mets', exps', runs', j + 1)
    ensures r.Err? ==> avg' == avg && mets' == mets && exps' == exps && runs' == runs
    ensures r.Err? ==> RowsRaise(rules, inferredMetrics, explainers[names[j]], data, old(explainers[names[j]].state),
                                 old(explainers[names[j]].attrs), r.error)
    ensures EndedIn(explainers, runs', States(explainers)) && WaitingIn(names, explainers, starts, States(explainers), j + 1)
  {
    var e := explainers[names[j]];
    ghost var run;
    ghost var pre := States(explainers);
    r, avg', mets', exps', run := ExplainOne(reg, e, names[j], data, inferredMetrics, avg, mets, exps, explainers, runs);
    runs' := runs;
    if r.Ok? {
      NextTurn(rules, inferredMetrics, names, j, explainers, data, starts, avg, mets, exps, runs, run, avg', mets', exps');
      runs' := runs[names[j] := run];
      StartsTurn(names, explainers, j, runs, starts, pre, true, run, runs');
      ProgressIntro(rules, inferredMetrics, names, explainers, data, starts, avg', mets', exps', runs', j + 1);
    }
    PrefixNext(names, j);
    TurnStep(names, explainers, j, runs, starts, pre, States(explainers), r.Ok?, run, runs');
  }

  /** The explainer loop of `explain_instances`: every explainer in
      insertion order over every row. The first `done` explainers finished,
      and `runs` records the states each of them passed through; an
      explainer registered under one name only starts from the state it had
      before the loop. On an exception, explainer `done` raised it: one of its
      rows raised from `turn`, the state its turn started in, and the tables
      hold the explainers finished before it. */
  method ExplainAll(reg: Registry, names: seq<string>, explainers: map<string, Explainer>, data: Frame, inferredMetrics: bool,
                    ghost starts: map<string, (PyVal, Attrs)>)
    returns (r: Result<(), Error>, avg: map<string, Metrics>, mets: map<string, map<string, Metrics>>,
             exps: map<string, map<string, PyVal>>, ghost runs: map<string, Run>, ghost done: nat,
             ghost turn: (PyVal, Attrs))
    requires Distinct(names)
    requires (forall k :: 0 <= k < |names| ==> names[k] in explainers) && WellFormed(data)
    requires starts == States(explainers)
    modifies explainers.Values
    ensures Explained(reg.rules, inferredMetrics, names, explainers, data, starts, r, avg, mets, exps, runs, done, turn)
    ensures EndStates(names, explainers, starts, runs, done, States(explainers))
  {
    avg, mets, exps := map[], map[], map[];
    runs := map[];
    r := Ok(());
    turn := (NoneVal, map[]);
    var j := 0;
    while j < |names|
      invariant 0 <= j <= |names| && r.Ok?
      invariant Progress(reg.rules, inferredMetrics, names, explainers, data, starts, avg, mets, exps, runs, j)
      invariant EndedIn(explainers, runs, States(explainers)) && WaitingIn(names, explainers, starts, States(explainers), j)
    {
      ghost var before := (explainers[names[j]].state, explainers[names[j]].attrs);
      r, avg, mets, exps, runs := ExplainNext(reg, names, j, explainers, data, inferredMetrics, avg, mets, exps, runs, starts, reg.rules);
      if r.Err? {
        turn := before;
        break;
      }
      j := j + 1;
    }
    done := j;
  }

  /** What `get_metric_data` returns. */
  datatype MetricData = MetricData(
    timestamp: string,
    explainers: seq<string>,
    properties: map<string, Metrics>,
    averagedMetrics: map<string, Metrics>,
    separateMetrics: map<string, map<string, Metrics>>)

  class ExplainerComparator {
    var names: seq<string>                       // the keys of `explainers`, in insertion order
    var explainers: map<string, Explainer>
    var properties: map<string, Metrics>
    var averaged: map<string, Metrics>
    var explanations: map<string, map<string, PyVal>>
    var metrics: map<string, map<string, Metrics>>
    var instances: Option<Frame>
    var timestamp: string

    ghost predicate Valid()
      reads this`names, this`explainers
    {
      Distinct(names) && (forall x :: x in names <==> x in explainers)
    }

    constructor ()
      ensures Valid()
      ensures names == [] && explainers == map[] && properties == map[]
      ensures averaged == map[] && explanations == map[] && metrics == map[]
      ensures instances == None && timestamp == ""
    {
      names := [];
      explainers := map[];
      properties := map[];
      averaged := map[];
      explanations := map[];
      metrics := map[];
      instances := None;
      timestamp := "";
    }

    /** `add_explainer(explainer, name)`: the prop report, taken without
        inference, is stored with the explainer; a name already present keeps
        its position and has both entries replaced. */
    method AddExplainer(reg: Registry, e: Explainer, name: string) returns (r: Result<(), Error>)
      requires Valid()
      modifies this, e`attrs
      ensures Valid()
      ensures e.attrs == old(e.attrs)
      ensures r.Err? ==> Reports(Err(r.error), e.attrs, e.own(e.state), PropNames(e.attrs))
      ensures r.Err? ==> names == old(names) && explainers == old(explainers) && properties == old(properties)
      ensures r.Ok? ==> names == if name in old(names) then old(names) else old(names) + [name]
      ensures r.Ok? ==> explainers == old(explainers)[name := e]
      ensures r.Ok? ==> name in properties && properties == old(properties)[name := properties[name]]
      ensures r.Ok? ==> Reports(Ok(properties[name]), e.attrs, e.own(e.state), PropNames(e.attrs))
      ensures averaged == old(averaged) && explanations == old(explanations) && metrics == old(metrics)
      ensures instances == old(instances) && timestamp == old(timestamp)
    {
      var report := Report(reg, e, Some("prop"), false);
      if report.Err? {
        return Err(report.error);
      }
      if name !in explainers {
        DistinctAppend(names, name);
        names := names + [name];
      }
      explainers := explainers[name := e];
      properties := properties[name := report.value];
      r := Ok(());
    }

    /** `explain_instances(instances, inferred_metrics)`: the three result
        tables are cleared, then filled explainer by explainer in insertion
        order; the timestamp is taken only once every explainer is done. An
        exception, raised by a row of explainer `done` from `turn`, the state
        its turn started in, leaves the entries of the explainers finished
        before it. */
    method ExplainInstances(reg: Registry, data: Frame, inferredMetrics: bool, now: string)
      returns (r: Result<(), Error>, ghost runs: map<string, Run>, ghost done: nat, ghost turn: (PyVal, Attrs))
      requires Valid() && WellFormed(data)
      modifies this, explainers.Values
      ensures Valid()
      ensures unchanged(this`names, this`explainers, this`properties)
      ensures instances == Some(data)
      ensures timestamp == if r.Ok? then now else old(timestamp)
      ensures Explained(reg.rules, inferredMetrics, names, explainers, data, old(States(explainers)), r, averaged, metrics,
                        explanations, runs, done, turn)
      ensures EndStates(names, explainers, old(States(explainers)), runs, done, States(explainers))
    {
      ghost var starts := States(explainers);
      var avg, mets, exps;
      r, avg, mets, exps, runs, done, turn := ExplainAll(reg, names, explainers, data, inferredMetrics, starts);
      Store(data, avg, mets, exps, r.Ok?, now);
    }

    /** The end of `explain_instances`: the three tables and the instances
        are stored, and the timestamp is taken when every explainer is
        done. */
    method Store(data: Frame, avg: map<string, Metrics>, mets: map<string, map<string, Metrics>>,
                 exps: map<string, map<string, PyVal>>, finished: bool, now: string)
      modifies this
      ensures names == old(names) && explainers == old(explainers) && properties == old(properties)
      ensures instances == Some(data) && averaged == avg && metrics == mets && explanations == exps
      ensures timestamp == if finished then now else old(timestamp)
      ensures States(explainers) == old(States(explainers))
    {
      instances, averaged, metrics, explanations := Some(data), avg, mets, exps;
      timestamp := if finished then now else timestamp;
    }

    /** `explain_representative(data, sampler, count, pred_fn,
        return_samples, inferred_metrics)`: the sampler is resolved before
        anything is sampled or explained; the samples are then explained as
        `explain_instances` explains them, and returned only when asked
        for. `sample` is the chosen sampler's `sample` method. */
    method ExplainRepresentative<D>(reg: Registry, data: D, sampler: SamplerArg, count: int, predFn: PyVal,
                                    returnSamples: bool, inferredMetrics: bool, now: string,
                                    sample: (SamplerKind, D, int, PyVal) -> Result<Frame, Error>)
      returns (r: Result<Option<Frame>, Error>, ghost runs: map<string, Run>, ghost done: nat,
               ghost turn: (PyVal, Attrs))
      requires Valid()
      requires forall k, c :: sample(k, data, c, predFn).Ok? ==> WellFormed(sample(k, data, c, predFn).value)
      modifies this, explainers.Values
      ensures Valid()
      ensures ResolveSampler(sampler).Err? ==> r == Err(ResolveSampler(sampler).error) && unchanged(this) && unchanged(explainers.Values)
      ensures ResolveSampler(sampler).Ok? && sample(ResolveSampler(sampler).value, data, count, predFn).Err? ==>
        r == Err(sample(ResolveSampler(sampler).value, data, count, predFn).error) && unchanged(this) && unchanged(explainers.Values)
      ensures ResolveSampler(sampler).Ok? && sample(ResolveSampler(sampler).value, data, count, predFn).Ok? ==>
        var samples := sample(ResolveSampler(sampler).value, data, count, predFn).value;
        names == old(names) && explainers == old(explainers) && properties == old(properties)
        && instances == Some(samples)
        && timestamp == (if r.Ok? then now else old(timestamp))
        && Explained(reg.rules, inferredMetrics, names, explainers, samples, old(States(explainers)), r, averaged, metrics,
                     explanations, runs, done, turn)
        && EndStates(names, explainers, old(States(explainers)), runs, done, States(explainers))
      ensures r.Ok? ==> r.value == if returnSamples then Some(sample(ResolveSampler(sampler).value, data, count, predFn).value) else None
    {
      runs, done, turn := map[], 0, (NoneVal, map[]);
      var kind := ResolveSampler(sampler);
      if kind.Err? {
        return Err(kind.error), runs, done, turn;
      }
      var samples := sample(kind.value, data, count, predFn);
      if samples.Err? {
        return Err(samples.error), runs, done, turn;
      }
      var explainedAll;
      explainedAll, runs, done, turn := ExplainInstances(reg, samples.value, inferredMetrics, now);
      if explainedAll.Err? {
        return Err(explainedAll.error), runs, done, turn;
      }
      r := Ok(if returnSamples then Some(samples.value) else None);
    }

    /** `get_metric_data()`: the timestamp, the explainer names in insertion
        order, and the three metric tables; explanations and instances are
        not part of it. */
    function GetMetricData(): (d: MetricData)
      reads this
      ensures Valid() ==> forall x :: x in d.explainers <==> x in explainers
      ensures Valid() ==> Distinct(d.explainers)
      ensures d.explainers == names
      ensures d.properties == properties && d.averagedMetrics == averaged && d.separateMetrics == metrics
      ensures d.timestamp == timestamp
    {
      MetricData(timestamp, names, properties, averaged, metrics)
    }
  }

  /** A comparator that has explained `n` rows with every explainer holds,
      for each explainer and metric reported by some row, the average of
      that metric's sum over all `n` rows. */
  lemma StoredAverage(avg: Metrics, stored: map<string, Metrics>, explanations: map<string, PyVal>, n: nat, m: string)
    requires Aggregated(avg, stored, explanations, RowKey, n)
    requires exists i :: 0 <= i < n && m in stored[RowKey(i)]
    ensures n > 0 && m in avg
    ensures MetricSum(StoredRows(stored, RowKey, n), m).Ok?
    ensures Ok(avg[m]) == PyDivBy(MetricSum(StoredRows(stored, RowKey, n), m).value, n)
  {
    var rows := StoredRows(stored, RowKey, n);
    var i :| 0 <= i < n && m in stored[RowKey(i)];
    assert m in rows[i];
    AverageOverAllRows(rows, m);
  }

  /** The averages name exactly the metrics some row reported. */
  lemma AveragedNames(avg: Metrics, stored: map<string, Metrics>, explanations: map<string, PyVal>, n: nat)
    requires Aggregated(avg, stored, explanations, RowKey, n)
    ensures forall m :: m in avg <==> exists i :: 0 <= i < n && m in stored[RowKey(i)]
  {
    var rows := StoredRows(stored, RowKey, n);
    SumRowsPerMetric(rows);
    forall m | m in avg
      ensures exists i :: 0 <= i < n && m in stored[RowKey(i)]
    {
      var i :| 0 <= i < n && m in rows[i];
      assert m in stored[RowKey(i)];
    }
    forall m | exists i :: 0 <= i < n && m in stored[RowKey(i)]
      ensures m in avg
    {
      var i :| 0 <= i < n && m in stored[RowKey(i)];
      assert m in rows[i];
    }
  }
}
