/** The ghost record of what the older comparator's row loop did: the
    states an explainer passes through, row by row, and the reports and
    explanations each row produced. */
module LegacyRuns {
  import opened Values
  import opened Frames
  import opened Tagging
  import opened Objects
  import opened Aggregation
  import opened Transfer
  import opened ExplainerBase
  import LegacyExplainer

  /** Rows are stored under their integer position. */
  function RowIndex(i: nat): nat
  {
    i
  }

  lemma RowIndexInjective()
    ensures Injective(RowIndex)
  {
  }

  /** Every metric of the object can be called without raising: its
      `report()` succeeds. */
  ghost predicate MetricsCallable(attrs: Attrs, own: string -> Callable)
  {
    forall x :: x in MetricNames(attrs) ==> Call(attrs, own, x, [], RecursionLimit).Ok?
  }

  /** `report` is what `report()` returns for an object with attributes
      `attrs` and own methods `own`: every metric called with no arguments. */
  ghost predicate Reported(report: Metrics, attrs: Attrs, own: string -> Callable)
  {
    report.Keys == MetricNames(attrs)
    && forall x :: x in report ==> Call(attrs, own, x, [], RecursionLimit) == Ok(report[x])
  }

  /** One turn of the row loop: explaining `row` from `state` gives
      `state'` and `explanation`; the first report succeeds;
      `infer_metrics()` closes the attributes over the inline graph; and
      `report` is the metric report of the object as it then is. */
  ghost predicate RowStep(pow: (real, real) -> real, e: Explainer, row: Frame, state: PyVal, attrs: Attrs,
                          state': PyVal, attrs': Attrs, report: Metrics, explanation: PyVal)
  {
    e.explainFn(state, row) == Ok((state', explanation))
    && MetricsCallable(attrs, e.own(state'))
    && attrs' == Closure(attrs, LegacyExplainer.TransferGraph(pow), false)
    && Reported(report, attrs', e.own(state'))
  }

  /** The first `n` rows of `data` were explained by `e` one after the
      other, passing through the states of `run`. */
  ghost predicate Ran(pow: (real, real) -> real, e: Explainer, data: Frame, n: nat, run: Run,
                      mets: map<nat, Metrics>, exps: map<nat, PyVal>)
    decreases n, 1
  {
    WellFormed(data) && n <= |data.rows| && |run.states| == n + 1 && |run.attrs| == n + 1
    && (n > 0 ==> RanLast(pow, e, data, n, run, mets, exps))
  }

  /** The rows before row `n - 1` were explained, and then row `n - 1` took
      the object from the state before it to the state after it, with the
      stored report and explanation. */
  ghost predicate RanLast(pow: (real, real) -> real, e: Explainer, data: Frame, n: nat, run: Run,
                          mets: map<nat, Metrics>, exps: map<nat, PyVal>)
    decreases n, 0
  {
    0 < n <= |data.rows| && |run.states| == n + 1 && |run.attrs| == n + 1
    && Ran(pow, e, data, n - 1, Run(run.states[..n], run.attrs[..n]), mets, exps)
    && n - 1 in mets && n - 1 in exps
    && RowStep(pow, e, ILocRow(data, n - 1), run.states[n - 1], run.attrs[n - 1], run.states[n], run.attrs[n],
               mets[n - 1], exps[n - 1])
  }

  /** Storing a later row's entries does not disturb a run over the rows
      before it. */
  lemma {:induction false} RanStored(pow: (real, real) -> real, e: Explainer, data: Frame, n: nat, run: Run,
                                     mets: map<nat, Metrics>, exps: map<nat, PyVal>, k: nat, report: Metrics, explanation: PyVal)
    requires Ran(pow, e, data, n, run, mets, exps) && n <= k
    ensures Ran(pow, e, data, n, run, mets[k := report], exps[k := explanation])
  {
    if n > 0 {
      RanStored(pow, e, data, n - 1, Run(run.states[..n], run.attrs[..n]), mets, exps, k, report, explanation);
    }
  }

  /** A run over `i` rows followed by a step over row `i` is a run over
      `i + 1` rows. */
  lemma RanStep(pow: (real, real) -> real, e: Explainer, data: Frame, i: nat, run: Run,
                mets: map<nat, Metrics>, exps: map<nat, PyVal>, state: PyVal, attrs: Attrs, report: Metrics, explanation: PyVal)
    requires Ran(pow, e, data, i, run, mets, exps) && i < |data.rows|
    requires RowStep(pow, e, ILocRow(data, i), run.states[i], run.attrs[i], state, attrs, report, explanation)
    ensures Ran(pow, e, data, i + 1, Run(run.states + [state], run.attrs + [attrs]), mets[i := report], exps[i := explanation])
  {
    RanStored(pow, e, data, i, run, mets, exps, i, report, explanation);
    assert (run.states + [state])[..i + 1] == run.states;
    assert (run.attrs + [attrs])[..i + 1] == run.attrs;
  }

  /** A run over `n` rows explains every one of them: row `i` takes the
      object from `run.states[i]` to `run.states[i + 1]`, and its stored
      report and explanation are what that step gave. */
  lemma {:induction false} RanRows(pow: (real, real) -> real, e: Explainer, data: Frame, n: nat, run: Run,
                                   mets: map<nat, Metrics>, exps: map<nat, PyVal>, i: nat)
    requires Ran(pow, e, data, n, run, mets, exps) && i < n
    ensures WellFormed(data) && i < |data.rows| && |run.states| == |run.attrs| == n + 1
    ensures i in mets && i in exps
    ensures RowStep(pow, e, ILocRow(data, i), run.states[i], run.attrs[i], run.states[i + 1], run.attrs[i + 1], mets[i], exps[i])
  {
    if i < n - 1 {
      var prefix := Run(run.states[..n], run.attrs[..n]);
      RanRows(pow, e, data, n - 1, prefix, mets, exps, i);
      assert prefix.states[i] == run.states[i] && prefix.states[i + 1] == run.states[i + 1];
      assert prefix.attrs[i] == run.attrs[i] && prefix.attrs[i + 1] == run.attrs[i + 1];
    }
  }

  /** Row `row`, explained from `state`, raised `err`: `explain_instance`
      raised it; or it went through and the first `report()` raised it; or
      that report went through and the one after `infer_metrics()` raised
      it. */
  ghost predicate StepFails(pow: (real, real) -> real, e: Explainer, row: Frame, state: PyVal, attrs: Attrs, err: Error)
  {
    match e.explainFn(state, row)
    case Err(x) => err == x
    case Ok(p) =>
      if MetricsCallable(attrs, e.own(p.0)) then
        var attrs' := Closure(attrs, LegacyExplainer.TransferGraph(pow), false);
        Reports(Err(err), attrs', e.own(p.0), MetricNames(attrs'))
      else
        Reports(Err(err), attrs, e.own(p.0), MetricNames(attrs))
  }

  /** Row `i` of `data` raised `err` itself, after a run over the rows
      before it. */
  ghost predicate StepFailedAt(pow: (real, real) -> real, e: Explainer, data: Frame, i: nat, run: Run, mets: map<nat, Metrics>, exps: map<nat, PyVal>, err: Error)
  {
    |run.states| == i + 1 && Ran(pow, e, data, i, run, mets, exps) && i < |data.rows|
    && StepFails(pow, e, ILocRow(data, i), run.states[i], run.attrs[i], err)
  }

  /** Row `i` of `data` went through, as the last step of `run` records,
      and adding its report to the sums of the rows before it raised
      `err`. */
  ghost predicate TallyFailedAt(pow: (real, real) -> real, e: Explainer, data: Frame, i: nat, run: Run, mets: map<nat, Metrics>, exps: map<nat, PyVal>, err: Error)
  {
    Ran(pow, e, data, i + 1, run, mets, exps)
    && HasRows(mets, RowIndex, i + 1) && SumRows(StoredRows(mets, RowIndex, i + 1)) == Err(err)
  }

  /** The row loop over `data` raised `err` at row `i`: the reports of the
      rows before it added up, and then row `i` raised `err` in its step or
      in the addition of its report. */
  ghost predicate FailedAt(pow: (real, real) -> real, e: Explainer, data: Frame, i: nat, run: Run, mets: map<nat, Metrics>, exps: map<nat, PyVal>, err: Error)
  {
    i < |data.rows| && HasRows(mets, RowIndex, i) && SumRows(StoredRows(mets, RowIndex, i)).Ok?
    && (StepFailedAt(pow, e, data, i, run, mets, exps, err) || TallyFailedAt(pow, e, data, i, run, mets, exps, err))
  }

  /** The row loop over `data`, started with the explainer in `state` with
      attributes `attrs`, raises `err` at some row. */
  ghost predicate RowsRaise(pow: (real, real) -> real, e: Explainer, data: Frame, state: PyVal, attrs: Attrs, err: Error)
  {
    exists i: nat, run: Run, mets: map<nat, Metrics>, exps: map<nat, PyVal> ::
      FailedAt(pow, e, data, i, run, mets, exps, err) && StartsAt(run, state, attrs)
  }

  /** A row that raises after a run over the rows before it, whose reports
      added up to `sums`, makes the row loop raise. */
  lemma StepRaises(pow: (real, real) -> real, e: Explainer, data: Frame, i: nat, run: Run, mets: map<nat, Metrics>, exps: map<nat, PyVal>, sums: Metrics, rows: seq<Metrics>, err: Error)
    requires Ran(pow, e, data, i, run, mets, exps) && i < |data.rows|
    requires RowsSoFar(sums, mets, exps, rows, RowIndex, i)
    requires StepFails(pow, e, ILocRow(data, i), run.states[i], run.attrs[i], err)
    ensures RowsRaise(pow, e, data, run.states[0], run.attrs[0], err)
  {
    StoredRowsSoFar(sums, mets, exps, rows, RowIndex, i);
    assert StepFailedAt(pow, e, data, i, run, mets, exps, err);
    FailedRaises(pow, e, data, i, run, mets, exps, err);
  }

  /** A row that goes through but whose report cannot be added to the sums
      of the rows before it makes the row loop raise. */
  lemma TallyRaises(pow: (real, real) -> real, e: Explainer, data: Frame, i: nat, run: Run, mets: map<nat, Metrics>, exps: map<nat, PyVal>, sums: Metrics, rows: seq<Metrics>,
                    state: PyVal, attrs: Attrs, report: Metrics, explanation: PyVal, err: Error)
    requires Ran(pow, e, data, i, run, mets, exps) && i < |data.rows|
    requires RowsSoFar(sums, mets, exps, rows, RowIndex, i)
    requires RowStep(pow, e, ILocRow(data, i), run.states[i], run.attrs[i], state, attrs, report, explanation)
    requires Accumulate(sums, report) == Err(err)
    ensures RowsRaise(pow, e, data, run.states[0], run.attrs[0], err)
  {
    RanStep(pow, e, data, i, run, mets, exps, state, attrs, report, explanation);
    var run' := Run(run.states + [state], run.attrs + [attrs]);
    var mets' := mets[i := report];
    var exps' := exps[i := explanation];
    TallyStored(sums, mets, exps, rows, i, report, err);
    assert TallyFailedAt(pow, e, data, i, run', mets', exps', err);
    FailedRaises(pow, e, data, i, run', mets', exps', err);
  }

  /** A failure at one row is a failure of the row loop from the run's
      start. */
  lemma FailedRaises(pow: (real, real) -> real, e: Explainer, data: Frame, i: nat, run: Run, mets: map<nat, Metrics>, exps: map<nat, PyVal>, err: Error)
    requires i < |data.rows| && HasRows(mets, RowIndex, i) && SumRows(StoredRows(mets, RowIndex, i)).Ok?
    requires StepFailedAt(pow, e, data, i, run, mets, exps, err) || TallyFailedAt(pow, e, data, i, run, mets, exps, err)
    ensures |run.states| > 0 && |run.attrs| > 0
    ensures RowsRaise(pow, e, data, run.states[0], run.attrs[0], err)
  {
    assert FailedAt(pow, e, data, i, run, mets, exps, err);
  }

  /** The tables of a row loop whose addition of row `i`'s report raised. */
  lemma TallyStored(sums: Metrics, mets: map<nat, Metrics>, exps: map<nat, PyVal>, rows: seq<Metrics>, i: nat, report: Metrics, err: Error)
    requires RowsSoFar(sums, mets, exps, rows, RowIndex, i) && Accumulate(sums, report) == Err(err)
    ensures HasRows(mets[i := report], RowIndex, i) && HasRows(mets[i := report], RowIndex, i + 1)
    ensures SumRows(StoredRows(mets[i := report], RowIndex, i)).Ok?
    ensures SumRows(StoredRows(mets[i := report], RowIndex, i + 1)) == Err(err)
  {
    RowIndexInjective();
    StoredRowsSoFar(sums, mets, exps, rows, RowIndex, i);
    StoredRowsSnoc(mets, RowIndex, i, report);
    StoredRowsKept(mets, RowIndex, i, report);
    SumRowsSnoc(rows, report);
  }

  /** One row explained from one state has one outcome. */
  lemma StepDeterministic(pow: (real, real) -> real, e: Explainer, row: Frame, state: PyVal, attrs: Attrs,
                          state1: PyVal, attrs1: Attrs, report1: Metrics, explanation1: PyVal,
                          state2: PyVal, attrs2: Attrs, report2: Metrics, explanation2: PyVal)
    requires RowStep(pow, e, row, state, attrs, state1, attrs1, report1, explanation1)
    requires RowStep(pow, e, row, state, attrs, state2, attrs2, report2, explanation2)
    ensures state1 == state2 && attrs1 == attrs2 && report1 == report2 && explanation1 == explanation2
  {
    assert forall x :: x in report1 ==> report1[x] == report2[x];
  }

  /** A row that goes through does not raise. */
  lemma StepExcludesFail(pow: (real, real) -> real, e: Explainer, row: Frame, state: PyVal, attrs: Attrs,
                         state': PyVal, attrs': Attrs, report: Metrics, explanation: PyVal, err: Error)
    requires RowStep(pow, e, row, state, attrs, state', attrs', report, explanation)
    ensures !StepFails(pow, e, row, state, attrs, err)
  {
  }

  /** Two runs from the same start pass through the same states and store
      the same reports: the explainer and the report are deterministic. */
  lemma {:induction false} RunsAgree(pow: (real, real) -> real, e: Explainer, data: Frame, n: nat, run: Run, mets: map<nat, Metrics>, exps: map<nat, PyVal>,
                                     m: nat, run': Run, mets': map<nat, Metrics>, exps': map<nat, PyVal>, k: nat)
    requires Ran(pow, e, data, n, run, mets, exps) && Ran(pow, e, data, m, run', mets', exps')
    requires k <= m <= n && run'.states[0] == run.states[0] && run'.attrs[0] == run.attrs[0]
    ensures run'.states[k] == run.states[k] && run'.attrs[k] == run.attrs[k]
    ensures k < m ==> k in mets && k in mets' && mets'[k] == mets[k]
  {
    if k > 0 {
      RunsAgree(pow, e, data, n, run, mets, exps, m, run', mets', exps', k - 1);
      RowsAgree(pow, e, data, n, run, mets, exps, m, run', mets', exps', k - 1);
    }
    if k < m {
      RowsAgree(pow, e, data, n, run, mets, exps, m, run', mets', exps', k);
    }
  }

  /** Row `k` of two runs that reach it in the same state. */
  lemma RowsAgree(pow: (real, real) -> real, e: Explainer, data: Frame, n: nat, run: Run, mets: map<nat, Metrics>, exps: map<nat, PyVal>,
                  m: nat, run': Run, mets': map<nat, Metrics>, exps': map<nat, PyVal>, k: nat)
    requires Ran(pow, e, data, n, run, mets, exps) && Ran(pow, e, data, m, run', mets', exps')
    requires k < m <= n && run'.states[k] == run.states[k] && run'.attrs[k] == run.attrs[k]
    ensures run'.states[k + 1] == run.states[k + 1] && run'.attrs[k + 1] == run.attrs[k + 1]
    ensures k in mets && k in mets' && mets'[k] == mets[k]
  {
    RanRows(pow, e, data, n, run, mets, exps, k);
    RanRows(pow, e, data, m, run', mets', exps', k);
    StepDeterministic(pow, e, ILocRow(data, k), run.states[k], run.attrs[k],
                      run.states[k + 1], run.attrs[k + 1], mets[k], exps[k],
                      run'.states[k + 1], run'.attrs[k + 1], mets'[k], exps'[k]);
  }

  /** A run over every row rules out a step failure at any one row `i`
      from the same start. */
  lemma NotStepFailedAt(pow: (real, real) -> real, e: Explainer, data: Frame, run: Run, mets: map<nat, Metrics>, exps: map<nat, PyVal>, i: nat, run': Run, mets': map<nat, Metrics>, exps': map<nat, PyVal>, err: Error)
    requires Ran(pow, e, data, |data.rows|, run, mets, exps)
    requires StartsAt(run', run.states[0], run.attrs[0])
    ensures !StepFailedAt(pow, e, data, i, run', mets', exps', err)
  {
    if |run'.states| == i + 1 && Ran(pow, e, data, i, run', mets', exps') && i < |data.rows| {
      RunsAgree(pow, e, data, |data.rows|, run, mets, exps, i, run', mets', exps', i);
      RanRows(pow, e, data, |data.rows|, run, mets, exps, i);
      StepExcludesFail(pow, e, ILocRow(data, i), run.states[i], run.attrs[i], run.states[i + 1],
                       run.attrs[i + 1], mets[i], exps[i], err);
    }
    StepNeedsFailure(pow, e, data, i, run', mets', exps', err);
  }

  /** A step failure needs a run up to the row and a row that raises. */
  lemma StepNeedsFailure(pow: (real, real) -> real, e: Explainer, data: Frame, i: nat, run: Run, mets: map<nat, Metrics>, exps: map<nat, PyVal>, err: Error)
    ensures StepFailedAt(pow, e, data, i, run, mets, exps, err) ==>
      |run.states| == i + 1 && Ran(pow, e, data, i, run, mets, exps) && i < |data.rows|
      && StepFails(pow, e, ILocRow(data, i), run.states[i], run.attrs[i], err)
  {
  }

  /** A run over every row whose reports add up rules out a failed
      addition at any one row `i` from the same start. */
  lemma NotTallyFailedAt(pow: (real, real) -> real, e: Explainer, data: Frame, run: Run, mets: map<nat, Metrics>, exps: map<nat, PyVal>, i: nat, run': Run, mets': map<nat, Metrics>, exps': map<nat, PyVal>, err: Error)
    requires Ran(pow, e, data, |data.rows|, run, mets, exps)
    requires HasRows(mets, RowIndex, |data.rows|) && SumRows(StoredRows(mets, RowIndex, |data.rows|)).Ok?
    requires StartsAt(run', run.states[0], run.attrs[0])
    ensures !TallyFailedAt(pow, e, data, i, run', mets', exps', err)
  {
    if Ran(pow, e, data, i + 1, run', mets', exps') && HasRows(mets', RowIndex, i + 1) {
      PrefixAddsUp(pow, e, data, run, mets, exps, i + 1, run', mets', exps');
    }
    TallyNeedsFailedSum(pow, e, data, i, run', mets', exps', err);
  }

  /** An addition that raises needs a run whose reports do not add up. */
  lemma TallyNeedsFailedSum(pow: (real, real) -> real, e: Explainer, data: Frame, i: nat, run: Run, mets: map<nat, Metrics>, exps: map<nat, PyVal>, err: Error)
    ensures TallyFailedAt(pow, e, data, i, run, mets, exps, err) ==>
      Ran(pow, e, data, i + 1, run, mets, exps) && HasRows(mets, RowIndex, i + 1)
      && SumRows(StoredRows(mets, RowIndex, i + 1)).Err?
  {
  }

  /** The reports of the first `m` rows of a run from the same start as a
      run over every row add up when those of the latter do. */
  lemma PrefixAddsUp(pow: (real, real) -> real, e: Explainer, data: Frame, run: Run, mets: map<nat, Metrics>, exps: map<nat, PyVal>, m: nat, run': Run, mets': map<nat, Metrics>, exps': map<nat, PyVal>)
    requires Ran(pow, e, data, |data.rows|, run, mets, exps)
    requires HasRows(mets, RowIndex, |data.rows|) && SumRows(StoredRows(mets, RowIndex, |data.rows|)).Ok?
    requires Ran(pow, e, data, m, run', mets', exps') && HasRows(mets', RowIndex, m)
    requires StartsAt(run', run.states[0], run.attrs[0])
    ensures SumRows(StoredRows(mets', RowIndex, m)).Ok?
  {
    forall k | 0 <= k < m
      ensures mets'[RowIndex(k)] == mets[RowIndex(k)]
    {
      RunsAgree(pow, e, data, |data.rows|, run, mets, exps, m, run', mets', exps', k);
    }
    SumRowsAgreeingPrefix(mets, mets', RowIndex, |data.rows|, m);
  }

  /** The row loop cannot both go through and raise: once every row has
      run and the reports add up, no row raises from the same start. */
  lemma RunExcludesRaise(pow: (real, real) -> real, e: Explainer, data: Frame, run: Run, mets: map<nat, Metrics>, exps: map<nat, PyVal>, err: Error)
    requires Ran(pow, e, data, |data.rows|, run, mets, exps)
    requires HasRows(mets, RowIndex, |data.rows|) && SumRows(StoredRows(mets, RowIndex, |data.rows|)).Ok?
    ensures !RowsRaise(pow, e, data, run.states[0], run.attrs[0], err)
  {
    forall i: nat, run': Run, mets': map<nat, Metrics>, exps': map<nat, PyVal> | StartsAt(run', run.states[0], run.attrs[0])
      ensures !FailedAt(pow, e, data, i, run', mets', exps', err)
    {
      NotStepFailedAt(pow, e, data, run, mets, exps, i, run', mets', exps', err);
      NotTallyFailedAt(pow, e, data, run, mets, exps, i, run', mets', exps', err);
    }
  }

  /** The explainers whose stored tables a recorded run over `data`
      produced. */
  ghost function Recorded(pow: (real, real) -> real, explainers: map<string, Explainer>, data: Frame, runs: map<string, Run>,
                          mets: map<string, map<nat, Metrics>>, exps: map<string, map<nat, PyVal>>): set<string>
  {
    set x | x in mets && x in exps && x in runs && x in explainers
              && Ran(pow, explainers[x], data, |data.rows|, runs[x], mets[x], exps[x])
  }

  /** An explainer whose tables were recorded did not raise from where its
      recorded run started: its turn went through. */
  lemma RecordedExcludesRaise(pow: (real, real) -> real, explainers: map<string, Explainer>, data: Frame, runs: map<string, Run>,
                              avg: map<string, Metrics>, mets: map<string, map<nat, Metrics>>,
                              exps: map<string, map<nat, PyVal>>, x: string, err: Error)
    requires AllAggregated(avg, mets, exps, RowIndex, |data.rows|)
    requires x in avg && avg.Keys <= Recorded(pow, explainers, data, runs, mets, exps)
    ensures x in explainers && x in runs && |runs[x].states| > 0 && |runs[x].attrs| > 0
    ensures !RowsRaise(pow, explainers[x], data, runs[x].states[0], runs[x].attrs[0], err)
  {
    assert Aggregated(avg[x], mets[x], exps[x], RowIndex, |data.rows|);
    RunExcludesRaise(pow, explainers[x], data, runs[x], mets[x], exps[x], err);
  }

  /** The tables after the turns of the first `j` explainers: every entry
      is a complete run over the rows, the tables hold exactly the first
      `j` names, each one's tables produced by its recorded run, and the run
      of an explainer registered under one name starts where `starts` says. */
  ghost predicate Progress(pow: (real, real) -> real, names: seq<string>, explainers: map<string, Explainer>, data: Frame,
                           starts: map<string, (PyVal, Attrs)>, avg: map<string, Metrics>,
                           mets: map<string, map<nat, Metrics>>, exps: map<string, map<nat, PyVal>>,
                           runs: map<string, Run>, j: nat)
  {
    AllAggregated(avg, mets, exps, RowIndex, |data.rows|)
    && j <= |names| && (forall x :: x in avg <==> x in names[..j]) && runs.Keys == avg.Keys
    && avg.Keys <= Recorded(pow, explainers, data, runs, mets, exps)
    && (forall x :: x in runs && Unshared(explainers, x) ==> x in starts && StartsAt(runs[x], starts[x].0, starts[x].1))
  }

  lemma ProgressIntro(pow: (real, real) -> real, names: seq<string>, explainers: map<string, Explainer>, data: Frame,
                      starts: map<string, (PyVal, Attrs)>, avg: map<string, Metrics>,
                      mets: map<string, map<nat, Metrics>>, exps: map<string, map<nat, PyVal>>,
                      runs: map<string, Run>, j: nat)
    requires AllAggregated(avg, mets, exps, RowIndex, |data.rows|)
    requires j <= |names| && (forall x :: x in avg <==> x in names[..j]) && runs.Keys == avg.Keys
    requires avg.Keys <= Recorded(pow, explainers, data, runs, mets, exps)
    requires forall x :: x in runs && Unshared(explainers, x) ==> x in starts && StartsAt(runs[x], starts[x].0, starts[x].1)
    ensures Progress(pow, names, explainers, data, starts, avg, mets, exps, runs, j)
  {
  }

  /** What the explainer loop of `explain_instances` leaves behind, given
      `starts`, the explainers' states before it. The tables of the first
      `done` explainers in insertion order, and of no others, are stored,
      averaged over every row, and each was produced by a recorded run of
      its explainer; for an explainer registered under one name that run
      started from the state `starts` gives. The loop went through exactly
      when every explainer finished. When it raised, a row of explainer
      `done` raised the error from `turn`, the state that explainer's turn
      started in, which is the state `starts` gives when it is registered
      under one name. */
  ghost predicate Explained(pow: (real, real) -> real, names: seq<string>, explainers: map<string, Explainer>, data: Frame,
                            starts: map<string, (PyVal, Attrs)>, r: Result<(), Error>, avg: map<string, Metrics>,
                            mets: map<string, map<nat, Metrics>>, exps: map<string, map<nat, PyVal>>,
                            runs: map<string, Run>, done: nat, turn: (PyVal, Attrs))
  {
    Progress(pow, names, explainers, data, starts, avg, mets, exps, runs, done)
    && (r.Ok? <==> done == |names|)
    && (r.Err? ==> names[done] in explainers && RowsRaise(pow, explainers[names[done]], data, turn.0, turn.1, r.error))
    && (r.Err? && Unshared(explainers, names[done]) ==> names[done] in starts && turn == starts[names[done]])
  }

  /** Storing one more explainer's tables, produced by `run`, keeps the
      other recorded explainers, whose tables stay as they were. */
  lemma RecordedStep(pow: (real, real) -> real, explainers: map<string, Explainer>, data: Frame, runs: map<string, Run>,
                     avg: map<string, Metrics>, mets: map<string, map<nat, Metrics>>, exps: map<string, map<nat, PyVal>>,
                     name: string, run: Run, avg': map<string, Metrics>, mets': map<string, map<nat, Metrics>>,
                     exps': map<string, map<nat, PyVal>>)
    requires avg.Keys <= Recorded(pow, explainers, data, runs, mets, exps)
    requires avg'.Keys == mets'.Keys == exps'.Keys
    requires forall x :: x in avg' ==> x in avg || x == name
    requires forall x :: x in avg && x != name ==> x in avg' && avg'[x] == avg[x] && mets'[x] == mets[x] && exps'[x] == exps[x]
    requires name in Recorded(pow, explainers, data, runs[name := run], mets', exps')
    ensures avg'.Keys <= Recorded(pow, explainers, data, runs[name := run], mets', exps')
  {
    forall x | x in avg' && x != name
      ensures x in Recorded(pow, explainers, data, runs[name := run], mets', exps')
    {
      assert x in Recorded(pow, explainers, data, runs, mets, exps);
      assert runs[name := run][x] == runs[x];
    }
  }
}
