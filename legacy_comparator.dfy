/** `ExplainerComparator` of xaibenchmark/comparator.py, the older twin of
    module Comparator: no properties, no timestamp, no sampler, and the
    per-row tables keyed by the integer row position. Its row loop calls
    `infer_metrics(printing=False)` on the older explainer class, whose
    `infer_metrics` takes no such argument; `ExplainRowsAsWritten` keeps that
    call, `ExplainRows` is the loop with the argument dropped. */
module LegacyComparator {
  import opened Values
  import opened Frames
  import opened Tagging
  import opened Objects
  import opened Aggregation
  import opened Transfer
  import opened ExplainerBase
  import LegacyExplainer
  import opened LegacyRuns

  /** The row loop as written: the first row is explained and reported, and
      then `infer_metrics(printing=False)` raises TypeError, since the
      method takes no keyword argument. Only an empty table gets through,
      with empty sums, rows and explanations. */
  method ExplainRowsAsWritten(e: Explainer, data: Frame)
    returns (r: Result<(Metrics, map<nat, Metrics>, map<nat, PyVal>), Error>)
    requires WellFormed(data)
    modifies e`state
    ensures r.Ok? <==> |data.rows| == 0
    ensures r.Ok? ==> r.value == (map[], map[], map[])
    ensures |data.rows| > 0 && e.explainFn(old(e.state), ILocRow(data, 0)).Ok?
            && MetricsCallable(e.attrs, e.own(e.explainFn(old(e.state), ILocRow(data, 0)).value.0)) ==>
            r == Err(TypeError)
  {
    // The loop over the rows never gets past its first iteration.
    if 0 < |data.rows| {
      var explanation := e.ExplainInstance(ILocRow(data, 0));
      if explanation.Err? {
        return Err(explanation.error);
      }
      var first := LegacyExplainer.Report(e);
      if first.Err? {
        return Err(first.error);
      }
      return Err(TypeError);
    }
    r := Ok((Averages(map[], 0), map[], map[]));
  }

  /** The body of the row loop for one row: `explain_instance`, `report()`,
      `infer_metrics()` and `report()` again; the second report is kept. */
  method ExplainRow(pow: (real, real) -> real, e: Explainer, row: Frame) returns (r: Result<(PyVal, Metrics), Error>)
    modifies e`state, e`attrs
    ensures e.explainFn(old(e.state), row).Err? ==> r == Err(e.explainFn(old(e.state), row).error)
    ensures r.Ok? ==> RowStep(pow, e, row, old(e.state), old(e.attrs), e.state, e.attrs, r.value.1, r.value.0)
    ensures r.Err? ==> StepFails(pow, e, row, old(e.state), old(e.attrs), r.error)
  {
    var explanation := e.ExplainInstance(row);
    if explanation.Err? {
      return Err(explanation.error);
    }
    var first := LegacyExplainer.Report(e);
    if first.Err? {
      return Err(first.error);
    }
    LegacyExplainer.InferMetrics(e, pow);
    var report := LegacyExplainer.Report(e);
    if report.Err? {
      return Err(report.error);
    }
    r := Ok((explanation.value, report.value));
  }

  /** One pass of the row loop, over row `i`: the row goes through
      `ExplainRow` and its report is added into the sums, which extends the
      run, started in `state0` and `attrs0`, by the state the row leaves the
      explainer in; or the row raises, and then the rows raise from where
      the run started. */
  method NextRow(pow: (real, real) -> real, e: Explainer, data: Frame, i: nat, sums: Metrics,
                 rowMetrics: map<nat, Metrics>, rowExplanations: map<nat, PyVal>, ghost rows: seq<Metrics>,
                 ghost run: Run, ghost state0: PyVal, ghost attrs0: Attrs)
    returns (r: Result<(Metrics, map<nat, Metrics>, map<nat, PyVal>), Error>, ghost rows': seq<Metrics>, ghost run': Run)
    requires i < |data.rows|
    requires RowsSoFar(sums, rowMetrics, rowExplanations, rows, RowIndex, i)
    requires Ran(pow, e, data, i, run, rowMetrics, rowExplanations)
    requires StartsAt(run, state0, attrs0) && e.state == run.states[i] && e.attrs == run.attrs[i]
    modifies e`state, e`attrs
    ensures r.Ok? ==> RowsSoFar(r.value.0, r.value.1, r.value.2, rows', RowIndex, i + 1)
    ensures r.Ok? ==> Ran(pow, e, data, i + 1, run', r.value.1, r.value.2)
    ensures r.Ok? ==> StartsAt(run', state0, attrs0) && e.state == run'.states[i + 1] && e.attrs == run'.attrs[i + 1]
    ensures r.Err? ==> RowsRaise(pow, e, data, state0, attrs0, r.error)
  {
    rows', run' := rows, run;
    var step := ExplainRow(pow, e, ILocRow(data, i));
    if step.Err? {
      StepRaises(pow, e, data, i, run, rowMetrics, rowExplanations, sums, rows, step.error);
      return Err(step.error), rows', run';
    }
    var tally := Tally(sums, step.value.1);
    if tally.Err? {
      TallyRaises(pow, e, data, i, run, rowMetrics, rowExplanations, sums, rows,
                  e.state, e.attrs, step.value.1, step.value.0, tally.error);
      return Err(tally.error), rows', run';
    }
    RowIndexInjective();
    RowsStep(sums, rowMetrics, rowExplanations, rows, RowIndex, i, step.value.1, step.value.0, tally.value);
    RanStep(pow, e, data, i, run, rowMetrics, rowExplanations, e.state, e.attrs, step.value.1, step.value.0);
    r := Ok((tally.value, rowMetrics[i := step.value.1], rowExplanations[i := step.value.0]));
    rows', run' := rows + [step.value.1], Run(run.states + [e.state], run.attrs + [e.attrs]);
  }

  /** The row loop with `infer_metrics()` called as the older explainer
      class defines it: each row goes through `ExplainRow` and its report is
      added into the sums; then the sums are averaged over all rows. `run`
      is the ghost record of the states the explainer passes through. The
      loop raises exactly when some row raises: in its step, or when its
      report is added. */
  method ExplainRows(pow: (real, real) -> real, e: Explainer, data: Frame)
    returns (r: Result<(Metrics, map<nat, Metrics>, map<nat, PyVal>), Error>, ghost run: Run)
    requires WellFormed(data)
    modifies e`state, e`attrs
    ensures r.Ok? ==> Aggregated(r.value.0, r.value.1, r.value.2, RowIndex, |data.rows|)
    ensures r.Ok? ==> Ran(pow, e, data, |data.rows|, run, r.value.1, r.value.2)
    ensures r.Ok? ==> StartsAt(run, old(e.state), old(e.attrs)) && EndsAt(run, e.state, e.attrs)
    ensures r.Ok? ==> forall err :: !RowsRaise(pow, e, data, old(e.state), old(e.attrs), err)
    ensures r.Err? ==> RowsRaise(pow, e, data, old(e.state), old(e.attrs), r.error)
  {
    var n := |data.rows|;
    var sums: Metrics := map[];
    var rowMetrics: map<nat, Metrics> := map[];
    var rowExplanations: map<nat, PyVal> := map[];
    ghost var rows: seq<Metrics> := [];
    run := Run([e.state], [e.attrs]);
    var i := 0;
    while i < n
      invariant 0 <= i <= n
      invariant RowsSoFar(sums, rowMetrics, rowExplanations, rows, RowIndex, i)
      invariant Ran(pow, e, data, i, run, rowMetrics, rowExplanations)
      invariant StartsAt(run, old(e.state), old(e.attrs))
      invariant e.state == run.states[i] && e.attrs == run.attrs[i]
    {
      var next;
      next, rows, run := NextRow(pow, e, data, i, sums, rowMetrics, rowExplanations, rows, run, old(e.state), old(e.attrs));
      if next.Err? {
        return Err(next.error), run;
      }
      sums, rowMetrics, rowExplanations := next.value.0, next.value.1, next.value.2;
      i := i + 1;
    }
    RowsDone(sums, rowMetrics, rowExplanations, rows, RowIndex, n);
    forall err {
      RunExcludesRaise(pow, e, data, run, rowMetrics, rowExplanations, err);
    }
    r := Ok((Averages(sums, n), rowMetrics, rowExplanations));
  }

  /** One explainer's turn: its rows are explained and its three tables
      stored under its name, produced by a run from the state it had when
      its turn came. On an exception, which one of its rows raised, the
      tables stay as they were. Only this explainer changes. */
  method ExplainOne(pow: (real, real) -> real, e: Explainer, name: string, data: Frame,
                    avg: map<string, Metrics>, mets: map<string, map<nat, Metrics>>, exps: map<string, map<nat, PyVal>>,
                    ghost explainers: map<string, Explainer>, ghost runs: map<string, Run>)
    returns (r: Result<(), Error>, avg': map<string, Metrics>, mets': map<string, map<nat, Metrics>>,
             exps': map<string, map<nat, PyVal>>, ghost run: Run)
    requires WellFormed(data) && AllAggregated(avg, mets, exps, RowIndex, |data.rows|)
    requires name in explainers && explainers[name] == e
    modifies e`state, e`attrs
    ensures AllAggregated(avg', mets', exps', RowIndex, |data.rows|)
    ensures forall x :: x in avg' ==> x in avg || x == name
    ensures forall x :: x in avg && x != name ==> x in avg' && avg'[x] == avg[x] && mets'[x] == mets[x] && exps'[x] == exps[x]
    ensures r.Err? ==> avg' == avg && mets' == mets && exps' == exps
    ensures r.Ok? ==> name in avg' && name in Recorded(pow, explainers, data, runs[name := run], mets', exps')
    ensures r.Ok? ==> StartsAt(run, old(e.state), old(e.attrs)) && EndsAt(run, e.state, e.attrs)
    ensures r.Err? ==> RowsRaise(pow, e, data, old(e.state), old(e.attrs), r.error)
    ensures forall x :: x in explainers && explainers[x] != e ==> States(explainers)[x] == old(States(explainers))[x]
  {
    var res;
    res, run := ExplainRows(pow, e, data);
    if res.Err? {
      return Err(res.error), avg, mets, exps, run;
    }
    AllAggregatedStep(avg, mets, exps, RowIndex, |data.rows|, name, res.value.0, res.value.1, res.value.2);
    r := Ok(());
    avg', mets', exps' := avg[name := res.value.0], mets[name := res.value.1], exps[name := res.value.2];
  }

  /** The keys of the tables after one finished explainer turn, on
      values: turn `j` stored its tables and its run under its own name, so
      the tables then hold exactly the first `j + 1` names. */
  lemma NextKeys(names: seq<string>, j: nat, avg: map<string, Metrics>, runs: map<string, Run>, run: Run,
                 avg': map<string, Metrics>)
    requires Distinct(names) && j < |names|
    requires (forall x :: x in avg <==> x in names[..j]) && runs.Keys == avg.Keys
    requires forall x :: x in avg' ==> x in avg || x == names[j]
    requires forall x :: x in avg && x != names[j] ==> x in avg'
    requires names[j] in avg'
    ensures (forall x :: x in avg' <==> x in names[..j + 1]) && runs[names[j] := run].Keys == avg'.Keys
  {
    KeysTurn(names, j, avg, runs, avg', runs[names[j] := run]);
  }

  /** The tables of one finished explainer turn, on values: turn `j` stored
      the tables its run produced. The tables then hold exactly the first
      `j + 1` names, and each one's tables are still produced by its
      recorded run. */
  lemma NextTurn(pow: (real, real) -> real, names: seq<string>, j: nat, explainers: map<string, Explainer>, data: Frame,
                 avg: map<string, Metrics>, mets: map<string, map<nat, Metrics>>, exps: map<string, map<nat, PyVal>>,
                 runs: map<string, Run>, run: Run, avg': map<string, Metrics>, mets': map<string, map<nat, Metrics>>,
                 exps': map<string, map<nat, PyVal>>)
    requires Distinct(names) && j < |names|
    requires (forall x :: x in avg <==> x in names[..j]) && runs.Keys == avg.Keys
    requires avg.Keys <= Recorded(pow, explainers, data, runs, mets, exps)
    requires avg'.Keys == mets'.Keys == exps'.Keys
    requires forall x :: x in avg' ==> x in avg || x == names[j]
    requires forall x :: x in avg && x != names[j] ==> x in avg' && avg'[x] == avg[x] && mets'[x] == mets[x] && exps'[x] == exps[x]
    requires names[j] in avg' && names[j] in Recorded(pow, explainers, data, runs[names[j] := run], mets', exps')
    ensures (forall x :: x in avg' <==> x in names[..j + 1]) && runs[names[j] := run].Keys == avg'.Keys
    ensures avg'.Keys <= Recorded(pow, explainers, data, runs[names[j] := run], mets', exps')
  {
    NextKeys(names, j, avg, runs, run, avg');
    RecordedStep(pow, explainers, data, runs, avg, mets, exps, names[j], run, avg', mets', exps');
  }

  /** The turn of the next explainer in insertion order: on success its
      tables are stored, produced by its recorded run; on an exception,
      which one of its rows raised from the state its turn started in,
      nothing is stored. Only this explainer changes, so an explainer
      registered under one name starts from, or keeps, the state `starts`
      gives it, and each finished one stays where its run ended. */
  method ExplainNext(pow: (real, real) -> real, names: seq<string>, j: nat, explainers: map<string, Explainer>, data: Frame,
                     avg: map<string, Metrics>, mets: map<string, map<nat, Metrics>>, exps: map<string, map<nat, PyVal>>,
                     ghost runs: map<string, Run>, ghost starts: map<string, (PyVal, Attrs)>)
    returns (r: Result<(), Error>, avg': map<string, Metrics>, mets': map<string, map<nat, Metrics>>,
             exps': map<string, map<nat, PyVal>>, ghost runs': map<string, Run>)
    requires Distinct(names)
    requires (forall k :: 0 <= k < |names| ==> names[k] in explainers) && WellFormed(data) && j < |names|
    requires explainers.Keys <= starts.Keys
    requires Progress(pow, names, explainers, data, starts, avg, mets, exps, runs, j)
    requires EndedIn(explainers, runs, States(explainers)) && WaitingIn(names, explainers, starts, States(explainers), j)
    modifies explainers[names[j]]
    ensures r.Ok? ==> Progress(pow, names, explainers, data, starts, avg', mets', exps', runs', j + 1)
    ensures r.Err? ==> avg' == avg && mets' == mets && exps' == exps && runs' == runs
    ensures r.Err? ==> RowsRaise(pow, explainers[names[j]], data, old(explainers[names[j]].state),
                                 old(explainers[names[j]].attrs), r.error)
    ensures EndedIn(explainers, runs', States(explainers)) && WaitingIn(names, explainers, starts, States(explainers), j + 1)
  {
    var e := explainers[names[j]];
    ghost var run;
    ghost var pre := States(explainers);
    r, avg', mets', exps', run := ExplainOne(pow, e, names[j], data, avg, mets, exps, explainers, runs);
    runs' := runs;
    if r.Ok? {
      runs' := runs[names[j] := run];
      assert Progress(pow, names, explainers, data, starts, avg', mets', exps', runs', j + 1) by {
        NextTurn(pow, names, j, explainers, data, avg, mets, exps, runs, run, avg', mets', exps');
        StartsTurn(names, explainers, j, runs, starts, pre, true, run, runs');
        ProgressIntro(pow, names, explainers, data, starts, avg', mets', exps', runs', j + 1);
      }
    }
    PrefixNext(names, j);
    TurnStep(names, explainers, j, runs, starts, pre, States(explainers), r.Ok?, run, runs');
  }

  /** The explainer loop: every explainer in insertion order over every
      row. The first `done` explainers finished, and `runs` records the
      states each of them passed through; an explainer registered under one
      name only starts from the state `starts` records for it, its state
      before the loop, and a finished one stays where its run ended. On an
      exception, explainer `done` raised it: one of its rows raised from
      `turn`, the state its turn started in, and the tables hold the
      explainers finished before it. */
  method ExplainAll(pow: (real, real) -> real, names: seq<string>, explainers: map<string, Explainer>, data: Frame,
                    ghost starts: map<string, (PyVal, Attrs)>)
    returns (r: Result<(), Error>, avg: map<string, Metrics>, mets: map<string, map<nat, Metrics>>,
             exps: map<string, map<nat, PyVal>>, ghost runs: map<string, Run>, ghost done: nat,
             ghost turn: (PyVal, Attrs))
    requires Distinct(names)
    requires (forall k :: 0 <= k < |names| ==> names[k] in explainers) && WellFormed(data)
    requires starts == States(explainers)
    modifies explainers.Values
    ensures Explained(pow, names, explainers, data, starts, r, avg, mets, exps, runs, done, turn)
    ensures EndStates(names, explainers, starts, runs, done, States(explainers))
  {
    avg, mets, exps := map[], map[], map[];
    runs := map[];
    r := Ok(());
    turn := (NoneVal, map[]);
    var j := 0;
    while j < |names|
      invariant 0 <= j <= |names| && r.Ok?
      invariant Progress(pow, names, explainers, data, starts, avg, mets, exps, runs, j)
      invariant EndedIn(explainers, runs, States(explainers)) && WaitingIn(names, explainers, starts, States(explainers), j)
    {
      ghost var before := (explainers[names[j]].state, explainers[names[j]].attrs);
      r, avg, mets, exps, runs := ExplainNext(pow, names, j, explainers, data, avg, mets, exps, runs, starts);
      if r.Err? {
        turn := before;
        break;
      }
      j := j + 1;
    }
    done := j;
  }

  class LegacyExplainerComparator {
    var names: seq<string>                       // the keys of `explainers`, in insertion order
    var explainers: map<string, Explainer>
    var averaged: map<string, Metrics>
    var explanations: map<string, map<nat, PyVal>>
    var metrics: map<string, map<nat, Metrics>>

    ghost predicate Valid()
      reads this`names, this`explainers
    {
      Distinct(names) && (forall x :: x in names <==> x in explainers)
    }

    constructor ()
      ensures Valid()
      ensures names == [] && explainers == map[]
      ensures averaged == map[] && explanations == map[] && metrics == map[]
    {
      names := [];
      explainers := map[];
      averaged := map[];
      explanations := map[];
      metrics := map[];
    }

    /** `add_explainer(explainer, name)`: the last explainer added under a
        name replaces the earlier one and keeps its position. */
    method AddExplainer(e: Explainer, name: string)
      requires Valid()
      modifies this
      ensures Valid()
      ensures names == if name in old(names) then old(names) else old(names) + [name]
      ensures explainers == old(explainers)[name := e]
      ensures averaged == old(averaged) && explanations == old(explanations) && metrics == old(metrics)
    {
      if name !in explainers {
        DistinctAppend(names, name);
        names := names + [name];
      }
      explainers := explainers[name := e];
    }

    /** `explain_instances(instances)` as written: the tables are cleared
        and the explainers run in insertion order, each raising TypeError on
        its first row. It succeeds only when there is no explainer or no
        row, leaving empty averages for every explainer. */
    method ExplainInstancesAsWritten(data: Frame) returns (r: Result<(), Error>)
      requires Valid() && WellFormed(data)
      modifies this, explainers.Values
      ensures Valid() && names == old(names) && explainers == old(explainers)
      ensures r.Ok? <==> names == [] || |data.rows| == 0
      ensures r.Ok? ==> averaged.Keys == explainers.Keys && forall x :: x in averaged ==> averaged[x] == map[]
      ensures r.Err? ==> averaged == map[] && metrics == map[] && explanations == map[]
    {
      var avg: map<string, Metrics>, mets: map<string, map<nat, Metrics>>, exps: map<string, map<nat, PyVal>> := map[], map[], map[];
      averaged, explanations, metrics := avg, exps, mets;
      var j := 0;
      while j < |names|
        invariant 0 <= j <= |names|
        invariant |data.rows| > 0 ==> j == 0
        invariant forall x :: x in avg <==> exists k :: 0 <= k < j && names[k] == x
        invariant forall x :: x in avg ==> avg[x] == map[]
        invariant averaged == map[] && metrics == map[] && explanations == map[]
        invariant Valid() && names == old(names) && explainers == old(explainers)
      {
        var res := ExplainRowsAsWritten(explainers[names[j]], data);
        if res.Err? {
          return Err(res.error);
        }
        avg, mets, exps := avg[names[j] := res.value.0], mets[names[j] := res.value.1], exps[names[j] := res.value.2];
        j := j + 1;
      }
      averaged, explanations, metrics := avg, exps, mets;
      r := Ok(());
    }

    /** `explain_instances(instances)` with `infer_metrics()` called without
        the stray argument: the tables are cleared and refilled explainer by
        explainer in insertion order, every explainer over every row. On an
        exception, explainer `done` raised it from `turn`, the state its
        turn started in, and the tables hold the explainers finished before
        it. */
    method ExplainInstances(pow: (real, real) -> real, data: Frame)
      returns (r: Result<(), Error>, ghost runs: map<string, Run>, ghost done: nat, ghost turn: (PyVal, Attrs))
      requires Valid() && WellFormed(data)
      modifies this, explainers.Values
      ensures Valid() && unchanged(this`names, this`explainers)
      ensures Explained(pow, names, explainers, data, old(States(explainers)), r, averaged, metrics, explanations,
                        runs, done, turn)
      ensures EndStates(names, explainers, old(States(explainers)), runs, done, States(explainers))
    {
      ghost var starts := States(explainers);
      var avg, mets, exps;
      r, avg, mets, exps, runs, done, turn := ExplainAll(pow, names, explainers, data, starts);
      Store(avg, mets, exps);
    }

    /** The end of `explain_instances`: the three tables are stored. */
    method Store(avg: map<string, Metrics>, mets: map<string, map<nat, Metrics>>, exps: map<string, map<nat, PyVal>>)
      modifies this
      ensures names == old(names) && explainers == old(explainers)
      ensures averaged == avg && metrics == mets && explanations == exps
      ensures States(explainers) == old(States(explainers))
    {
      averaged, metrics, explanations := avg, mets, exps;
    }
  }
}
