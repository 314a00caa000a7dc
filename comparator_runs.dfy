/** The ghost record of what the row loop of `explain_instances` in
    astrapia/comparator.py did: the states an explainer passes through, row
    by row, and the reports and explanations each row produced. */
module ComparatorRuns {
  import opened Values
  import opened Text
  import opened Frames
  import opened Objects
  import opened Transfer
  import opened ExplainerBase
  import opened Aggregation

  /** Rows are stored under `str(index)`. */
  function RowKey(i: nat): string
  {
    NatToString(i)
  }

  lemma RowKeyInjective()
    ensures Injective(RowKey)
  {
    forall a: nat, b: nat | RowKey(a) == RowKey(b)
      ensures a == b
    {
      NatToStringInjective(a, b);
    }
  }

  /** One turn of the row loop: explaining `row` from `state` gives
      `state'` and `explanation`; the attributes are inferred when asked;
      and `report` is the metric report of the object as it then is. */
  ghost predicate RowStep(rules: seq<Rule>, inferredMetrics: bool, e: Explainer, row: Frame, state: PyVal, attrs: Attrs,
                          state': PyVal, attrs': Attrs, report: Metrics, explanation: PyVal)
  {
    e.explainFn(state, row) == Ok((state', explanation))
    && attrs' == (if inferredMetrics then Closure(attrs, rules, true) else attrs)
    && Reports(Ok(report), attrs', e.own(state'), MetricNames(attrs'))
  }

  /** The first `n` rows of `data` were explained by `e` one after the
      other, passing through the states of `run`. */
  ghost predicate Ran(rules: seq<Rule>, inferredMetrics: bool, e: Explainer, data: Frame, n: nat, run: Run,
                      mets: map<string, Metrics>, exps: map<string, PyVal>)
    decreases n, 1
  {
    WellFormed(data) && n <= |data.rows| && |run.states| == n + 1 && |run.attrs| == n + 1
    && (n > 0 ==> RanLast(rules, inferredMetrics, e, data, n, run, mets, exps))
  }

  /** The rows before row `n - 1` were explained, and then row `n - 1` took
      the object from the state before it to the state after it, with the
      report and explanation stored under `str(n - 1)`. */
  ghost predicate RanLast(rules: seq<Rule>, inferredMetrics: bool, e: Explainer, data: Frame, n: nat, run: Run,
                          mets: map<string, Metrics>, exps: map<string, PyVal>)
    decreases n, 0
  {
    0 < n <= |data.rows| && |run.states| == n + 1 && |run.attrs| == n + 1
    && Ran(rules, inferredMetrics, e, data, n - 1, Run(run.states[..n], run.attrs[..n]), mets, exps)
    && RowKey(n - 1) in mets && RowKey(n - 1) in exps
    && RowStep(rules, inferredMetrics, e, ILocRow(data, n - 1), run.states[n - 1], run.attrs[n - 1],
               run.states[n], run.attrs[n], mets[RowKey(n - 1)], exps[RowKey(n - 1)])
  }

  /** Storing a later row's entries does not disturb a run over the rows
      before it. */
  lemma {:induction false} RanStored(rules: seq<Rule>, inferredMetrics: bool, e: Explainer, data: Frame, n: nat, run: Run,
                                     mets: map<string, Metrics>, exps: map<string, PyVal>, k: nat, report: Metrics,
                                     explanation: PyVal)
    requires Ran(rules, inferredMetrics, e, data, n, run, mets, exps) && n <= k
    ensures Ran(rules, inferredMetrics, e, data, n, run, mets[RowKey(k) := report], exps[RowKey(k) := explanation])
  {
    if n > 0 {
      RanStored(rules, inferredMetrics, e, data, n - 1, Run(run.states[..n], run.attrs[..n]), mets, exps, k, report, explanation);
      NatToStringInjective(n - 1, k);
    }
  }

  /** A run over `i` rows followed by a step over row `i` is a run over
      `i + 1` rows. */
  lemma RanStep(rules: seq<Rule>, inferredMetrics: bool, e: Explainer, data: Frame, i: nat, run: Run,
                mets: map<string, Metrics>, exps: map<string, PyVal>, state: PyVal, attrs: Attrs, report: Metrics,
                explanation: PyVal)
    requires Ran(rules, inferredMetrics, e, data, i, run, mets, exps) && i < |data.rows|
    requires RowStep(rules, inferredMetrics, e, ILocRow(data, i), run.states[i], run.attrs[i], state, attrs, report, explanation)
    ensures Ran(rules, inferredMetrics, e, data, i + 1, Run(run.states + [state], run.attrs + [attrs]),
                mets[RowKey(i) := report], exps[RowKey(i) := explanation])
  {
    RanStored(rules, inferredMetrics, e, data, i, run, mets, exps, i, report, explanation);
    assert (run.states + [state])[..i + 1] == run.states;
    assert (run.attrs + [attrs])[..i + 1] == run.attrs;
  }

  /** A run over `n` rows explains every one of them: row `i` takes the
      object from `run.states[i]` to `run.states[i + 1]`, and the report
      and explanation stored under `str(i)` are what that step gave. */
  lemma {:induction false} RanRows(rules: seq<Rule>, inferredMetrics: bool, e: Explainer, data: Frame, n: nat, run: Run,
                                   mets: map<string, Metrics>, exps: map<string, PyVal>, i: nat)
    requires Ran(rules, inferredMetrics, e, data, n, run, mets, exps) && i < n
    ensures WellFormed(data) && i < |data.rows| && |run.states| == |run.attrs| == n + 1
    ensures RowKey(i) in mets && RowKey(i) in exps
    ensures RowStep(rules, inferredMetrics, e, ILocRow(data, i), run.states[i], run.attrs[i], run.states[i + 1],
                    run.attrs[i + 1], mets[RowKey(i)], exps[RowKey(i)])
  {
    if i < n - 1 {
      var prefix := Run(run.states[..n], run.attrs[..n]);
      RanRows(rules, inferredMetrics, e, data, n - 1, prefix, mets, exps, i);
      assert prefix.states[i] == run.states[i] && prefix.states[i + 1] == run.states[i + 1];
      assert prefix.attrs[i] == run.attrs[i] && prefix.attrs[i + 1] == run.attrs[i + 1];
    }
  }

  /** Row `row`, explained from `state`, raised `err`: `explain_instance`
      raised it, or it went through and the metric report, taken after
      inference when asked, raised it. */
  ghost predicate StepFails(rules: seq<Rule>, inferredMetrics: bool, e: Explainer, row: Frame, state: PyVal, attrs: Attrs,
                            err: Error)
  {
    match e.explainFn(state, row)
    case Err(x) => err == x
    case Ok(p) =>
      var attrs' := if inferredMetrics then Closure(attrs, rules, true) else attrs;
      Reports(Err(err), attrs', e.own(p.0), MetricNames(attrs'))
  }

  /** Row `i` of `data` raised `err` itself, after a run over the rows
      before it. */
  ghost predicate StepFailedAt(rules: seq<Rule>, inferredMetrics: bool, e: Explainer, data: Frame, i: nat, run: Run,
                               mets: map<string, Metrics>, exps: map<string, PyVal>, err: Error)
  {
    |run.states| == i + 1 && Ran(rules, inferredMetrics, e, data, i, run, mets, exps) && i < |data.rows|
    && StepFails(rules, inferredMetrics, e, ILocRow(data, i), run.states[i], run.attrs[i], err)
  }

  /** Row `i` of `data` went through, as the last step of `run` records,
      and adding its report to the sums of the rows before it raised
      `err`. */
  ghost predicate TallyFailedAt(rules: seq<Rule>, inferredMetrics: bool, e: Explainer, data: Frame, i: nat, run: Run,
                                mets: map<string, Metrics>, exps: map<string, PyVal>, err: Error)
  {
    Ran(rules, inferredMetrics, e, data, i + 1, run, mets, exps)
    && HasRows(mets, RowKey, i + 1) && SumRows(StoredRows(mets, RowKey, i + 1)) == Err(err)
  }

  /** The row loop over `data` raised `err` at row `i`: the reports of the
      rows before it added up, and then row `i` raised `err` in its step or
      in the addition of its report. */
  ghost predicate FailedAt(rules: seq<Rule>, inferredMetrics: bool, e: Explainer, data: Frame, i: nat, run: Run,
                           mets: map<string, Metrics>, exps: map<string, PyVal>, err: Error)
  {
    i < |data.rows| && HasRows(mets, RowKey, i) && SumRows(StoredRows(mets, RowKey, i)).Ok?
    && (StepFailedAt(rules, inferredMetrics, e, data, i, run, mets, exps, err)
        || TallyFailedAt(rules, inferredMetrics, e, data, i, run, mets, exps, err))
  }

  /** The row loop over `data`, started with the explainer in `state` with
      attributes `attrs`, raises `err` at some row. */
  ghost predicate RowsRaise(rules: seq<Rule>, inferredMetrics: bool, e: Explainer, data: Frame, state: PyVal, attrs: Attrs,
                            err: Error)
  {
    exists i: nat, run: Run, mets: map<string, Metrics>, exps: map<string, PyVal> ::
      FailedAt(rules, inferredMetrics, e, data, i, run, mets, exps, err) && StartsAt(run, state, attrs)
  }

  /** A row that raises after a run over the rows before it, whose reports
      added up to `sums`, makes the row loop raise. */
  lemma StepRaises(rules: seq<Rule>, inferredMetrics: bool, e: Explainer, data: Frame, i: nat, run: Run,
                   mets: map<string, Metrics>, exps: map<string, PyVal>, sums: Metrics, rows: seq<Metrics>, err: Error)
    requires Ran(rules, inferredMetrics, e, data, i, run, mets, exps) && i < |data.rows|
    requires RowsSoFar(sums, mets, exps, rows, RowKey, i)
    requires StepFails(rules, inferredMetrics, e, ILocRow(data, i), run.states[i], run.attrs[i], err)
    ensures RowsRaise(rules, inferredMetrics, e, data, run.states[0], run.attrs[0], err)
  {
    StoredRowsSoFar(sums, mets, exps, rows, RowKey, i);
    assert StepFailedAt(rules, inferredMetrics, e, data, i, run, mets, exps, err);
    FailedRaises(rules, inferredMetrics, e, data, i, run, mets, exps, err);
  }

  /** A row that goes through but whose report cannot be added to the sums
      of the rows before it makes the row loop raise. */
  lemma TallyRaises(rules: seq<Rule>, inferredMetrics: bool, e: Explainer, data: Frame, i: nat, run: Run,
                    mets: map<string, Metrics>, exps: map<string, PyVal>, sums: Metrics, rows: seq<Metrics>,
                    state: PyVal, attrs: Attrs, report: Metrics, explanation: PyVal, err: Error)
    requires Ran(rules, inferredMetrics, e, data, i, run, mets, exps) && i < |data.rows|
    requires RowsSoFar(sums, mets, exps, rows, RowKey, i)
    requires RowStep(rules, inferredMetrics, e, ILocRow(data, i), run.states[i], run.attrs[i], state, attrs, report, explanation)
    requires Accumulate(sums, report) == Err(err)
    ensures RowsRaise(rules, inferredMetrics, e, data, run.states[0], run.attrs[0], err)
  {
    RanStep(rules, inferredMetrics, e, data, i, run, mets, exps, state, attrs, report, explanation);
    var run' := Run(run.states + [state], run.attrs + [attrs]);
    var mets' := mets[RowKey(i) := report];
    var exps' := exps[RowKey(i) := explanation];
    TallyStored(sums, mets, exps, rows, i, report, err);
    assert TallyFailedAt(rules, inferredMetrics, e, data, i, run', mets', exps', err);
    FailedRaises(rules, inferredMetrics, e, data, i, run', mets', exps', err);
  }

  /** A failure at one row is a failure of the row loop from the run's
      start. */
  lemma FailedRaises(rules: seq<Rule>, inferredMetrics: bool, e: Explainer, data: Frame, i: nat, run: Run,
                     mets: map<string, Metrics>, exps: map<string, PyVal>, err: Error)
    requires i < |data.rows| && HasRows(mets, RowKey, i) && SumRows(StoredRows(mets, RowKey, i)).Ok?
    requires StepFailedAt(rules, inferredMetrics, e, data, i, run, mets, exps, err)
          || TallyFailedAt(rules, inferredMetrics, e, data, i, run, mets, exps, err)
    ensures |run.states| > 0 && |run.attrs| > 0
    ensures RowsRaise(rules, inferredMetrics, e, data, run.states[0], run.attrs[0], err)
  {
    assert FailedAt(rules, inferredMetrics, e, data, i, run, mets, exps, err);
  }

  /** The tables of a row loop whose addition of row `i`'s report raised. */
  lemma TallyStored(sums: Metrics, mets: map<string, Metrics>, exps: map<string, PyVal>, rows: seq<Metrics>, i: nat,
                    report: Metrics, err: Error)
    requires RowsSoFar(sums, mets, exps, rows, RowKey, i) && Accumulate(sums, report) == Err(err)
    ensures HasRows(mets[RowKey(i) := report], RowKey, i) && HasRows(mets[RowKey(i) := report], RowKey, i + 1)
    ensures SumRows(StoredRows(mets[RowKey(i) := report], RowKey, i)).Ok?
    ensures SumRows(StoredRows(mets[RowKey(i) := report], RowKey, i + 1)) == Err(err)
  {
    RowKeyInjective();
    StoredRowsSoFar(sums, mets, exps, rows, RowKey, i);
    StoredRowsSnoc(mets, RowKey, i, report);
    StoredRowsKept(mets, RowKey, i, report);
    SumRowsSnoc(rows, report);
  }

  /** One row explained from one state has one outcome. */
  lemma StepDeterministic(rules: seq<Rule>, inferredMetrics: bool, e: Explainer, row: Frame, state: PyVal, attrs: Attrs,
                          state1: PyVal, attrs1: Attrs, report1: Metrics, explanation1: PyVal,
                          state2: PyVal, attrs2: Attrs, report2: Metrics, explanation2: PyVal)
    requires RowStep(rules, inferredMetrics, e, row, state, attrs, state1, attrs1, report1, explanation1)
    requires RowStep(rules, inferredMetrics, e, row, state, attrs, state2, attrs2, report2, explanation2)
    ensures state1 == state2 && attrs1 == attrs2 && report1 == report2 && explanation1 == explanation2
  {
    assert forall x :: x in report1 ==> report1[x] == report2[x];
  }

  /** A row that goes through does not raise. */
  lemma StepExcludesFail(rules: seq<Rule>, inferredMetrics: bool, e: Explainer, row: Frame, state: PyVal, attrs: Attrs,
                         state': PyVal, attrs': Attrs, report: Metrics, explanation: PyVal, err: Error)
    requires RowStep(rules, inferredMetrics, e, row, state, attrs, state', attrs', report, explanation)
    ensures !StepFails(rules, inferredMetrics, e, row, state, attrs, err)
  {
  }

  /** Two runs from the same start pass through the same states and store
      the same reports: the explainer and the report are deterministic. */
  lemma {:induction false} RunsAgree(rules: seq<Rule>, inferredMetrics: bool, e: Explainer, data: Frame, n: nat, run: Run,
                                     mets: map<string, Metrics>, exps: map<string, PyVal>, m: nat, run': Run,
                                     mets': map<string, Metrics>, exps': map<string, PyVal>, k: nat)
    requires Ran(rules, inferredMetrics, e, data, n, run, mets, exps) && Ran(rules, inferredMetrics, e, data, m, run', mets', exps')
    requires k <= m <= n && run'.states[0] == run.states[0] && run'.attrs[0] == run.attrs[0]
    ensures run'.states[k] == run.states[k] && run'.attrs[k] == run.attrs[k]
    ensures k < m ==> RowKey(k) in mets && RowKey(k) in mets' && mets'[RowKey(k)] == mets[RowKey(k)]
  {
    if k > 0 {
      RunsAgree(rules, inferredMetrics, e, data, n, run, mets, exps, m, run', mets', exps', k - 1);
      RowsAgree(rules, inferredMetrics, e, data, n, run, mets, exps, m, run', mets', exps', k - 1);
    }
    if k < m {
      RowsAgree(rules, inferredMetrics, e, data, n, run, mets, exps, m, run', mets', exps', k);
    }
  }

  /** Row `k` of two runs that reach it in the same state. */
  lemma RowsAgree(rules: seq<Rule>, inferredMetrics: bool, e: Explainer, data: Frame, n: nat, run: Run,
                  mets: map<string, Metrics>, exps: map<string, PyVal>, m: nat, run': Run,
                  mets': map<string, Metrics>, exps': map<string, PyVal>, k: nat)
    requires Ran(rules, inferredMetrics, e, data, n, run, mets, exps) && Ran(rules, inferredMetrics, e, data, m, run', mets', exps')
    requires k < m <= n && run'.states[k] == run.states[k] && run'.attrs[k] == run.attrs[k]
    ensures run'.states[k + 1] == run.states[k + 1] && run'.attrs[k + 1] == run.attrs[k + 1]
    ensures RowKey(k) in mets && RowKey(k) in mets' && mets'[RowKey(k)] == mets[RowKey(k)]
  {
    RanRows(rules, inferredMetrics, e, data, n, run, mets, exps, k);
    RanRows(rules, inferredMetrics, e, data, m, run', mets', exps', k);
    StepDeterministic(rules, inferredMetrics, e, ILocRow(data, k), run.states[k], run.attrs[k],
                      run.states[k + 1], run.attrs[k + 1], mets[RowKey(k)], exps[RowKey(k)],
                      run'.states[k + 1], run'.attrs[k + 1], mets'[RowKey(k)], exps'[RowKey(k)]);
  }

  /** A run over every row rules out a step failure at any one row `i`
      from the same start. */
  lemma NotStepFailedAt(rules: seq<Rule>, inferredMetrics: bool, e: Explainer, data: Frame, run: Run,
                        mets: map<string, Metrics>, exps: map<string, PyVal>, i: nat, run': Run,
                        mets': map<string, Metrics>, exps': map<string, PyVal>, err: Error)
    requires Ran(rules, inferredMetrics, e, data, |data.rows|, run, mets, exps)
    requires StartsAt(run', run.states[0], run.attrs[0])
    ensures !StepFailedAt(rules, inferredMetrics, e, data, i, run', mets', exps', err)
  {
    if |run'.states| == i + 1 && Ran(rules, inferredMetrics, e, data, i, run', mets', exps') && i < |data.rows| {
      RunsAgree(rules, inferredMetrics, e, data, |data.rows|, run, mets, exps, i, run', mets', exps', i);
      RanRows(rules, inferredMetrics, e, data, |data.rows|, run, mets, exps, i);
      StepExcludesFail(rules, inferredMetrics, e, ILocRow(data, i), run.states[i], run.attrs[i], run.states[i + 1],
                       run.attrs[i + 1], mets[RowKey(i)], exps[RowKey(i)], err);
    }
    StepNeedsFailure(rules, inferredMetrics, e, data, i, run', mets', exps', err);
  }

  /** A step failure needs a run up to the row and a row that raises. */
  lemma StepNeedsFailure(rules: seq<Rule>, inferredMetrics: bool, e: Explainer, data: Frame, i: nat, run: Run,
                         mets: map<string, Metrics>, exps: map<string, PyVal>, err: Error)
    ensures StepFailedAt(rules, inferredMetrics, e, data, i, run, mets, exps, err) ==>
      |run.states| == i + 1 && Ran(rules, inferredMetrics, e, data, i, run, mets, exps) && i < |data.rows|
      && StepFails(rules, inferredMetrics, e, ILocRow(data, i), run.states[i], run.attrs[i], err)
  {
  }

  /** A run over every row whose reports add up rules out a failed
      addition at any one row `i` from the same start. */
  lemma NotTallyFailedAt(rules: seq<Rule>, inferredMetrics: bool, e: Explainer, data: Frame, run: Run,
                         mets: map<string, Metrics>, exps: map<string, PyVal>, i: nat, run': Run,
                         mets': map<string, Metrics>, exps': map<string, PyVal>, err: Error)
    requires Ran(rules, inferredMetrics, e, data, |data.rows|, run, mets, exps)
    requires HasRows(mets, RowKey, |data.rows|) && SumRows(StoredRows(mets, RowKey, |data.rows|)).Ok?
    requires StartsAt(run', run.states[0], run.attrs[0])
    ensures !TallyFailedAt(rules, inferredMetrics, e, data, i, run', mets', exps', err)
  {
    if Ran(rules, inferredMetrics, e, data, i + 1, run', mets', exps') && HasRows(mets', RowKey, i + 1) {
      PrefixAddsUp(rules, inferredMetrics, e, data, run, mets, exps, i + 1, run', mets', exps');
    }
    TallyNeedsFailedSum(rules, inferredMetrics, e, data, i, run', mets', exps', err);
  }

  /** An addition that raises needs a run whose reports do not add up. */
  lemma TallyNeedsFailedSum(rules: seq<Rule>, inferredMetrics: bool, e: Explainer, data: Frame, i: nat, run: Run,
                            mets: map<string, Metrics>, exps: map<string, PyVal>, err: Error)
    ensures TallyFailedAt(rules, inferredMetrics, e, data, i, run, mets, exps, err) ==>
      Ran(rules, inferredMetrics, e, data, i + 1, run, mets, exps) && HasRows(mets, RowKey, i + 1)
      && SumRows(StoredRows(mets, RowKey, i + 1)).Err?
  {
  }

  /** The reports of the first `m` rows of a run from the same start as a
      run over every row add up when those of the latter do. */
  lemma PrefixAddsUp(rules: seq<Rule>, inferredMetrics: bool, e: Explainer, data: Frame, run: Run,
                     mets: map<string, Metrics>, exps: map<string, PyVal>, m: nat, run': Run,
                     mets': map<string, Metrics>, exps': map<string, PyVal>)
    requires Ran(rules, inferredMetrics, e, data, |data.rows|, run, mets, exps)
    requires HasRows(mets, RowKey, |data.rows|) && SumRows(StoredRows(mets, RowKey, |data.rows|)).Ok?
    requires Ran(rules, inferredMetrics, e, data, m, run', mets', exps') && HasRows(mets', RowKey, m)
    requires StartsAt(run', run.states[0], run.attrs[0])
    ensures SumRows(StoredRows(mets', RowKey, m)).Ok?
  {
    forall k | 0 <= k < m
      ensures mets'[RowKey(k)] == mets[RowKey(k)]
    {
      RunsAgree(rules, inferredMetrics, e, data, |data.rows|, run, mets, exps, m, run', mets', exps', k);
    }
    SumRowsAgreeingPrefix(mets, mets', RowKey, |data.rows|, m);
  }

  /** The row loop cannot both go through and raise: once every row has
      run and the reports add up, no row raises from the same start. */
  lemma RunExcludesRaise(rules: seq<Rule>, inferredMetrics: bool, e: Explainer, data: Frame, run: Run,
                         mets: map<string, Metrics>, exps: map<string, PyVal>, err: Error)
    requires Ran(rules, inferredMetrics, e, data, |data.rows|, run, mets, exps)
    requires HasRows(mets, RowKey, |data.rows|) && SumRows(StoredRows(mets, RowKey, |data.rows|)).Ok?
    ensures !RowsRaise(rules, inferredMetrics, e, data, run.states[0], run.attrs[0], err)
  {
    forall i: nat, run': Run, mets': map<string, Metrics>, exps': map<string, PyVal> | StartsAt(run', run.states[0], run.attrs[0])
      ensures !FailedAt(rules, inferredMetrics, e, data, i, run', mets', exps', err)
    {
      NotStepFailedAt(rules, inferredMetrics, e, data, run, mets, exps, i, run', mets', exps', err);
      NotTallyFailedAt(rules, inferredMetrics, e, data, run, mets, exps, i, run', mets', exps', err);
    }
  }

  /** The explainers whose stored tables a recorded run over `data`
      produced. */
  ghost function Recorded(rules: seq<Rule>, inferredMetrics: bool, explainers: map<string, Explainer>, data: Frame,
                          runs: map<string, Run>, mets: map<string, map<string, Metrics>>,
                          exps: map<string, map<string, PyVal>>): set<string>
  {
    set x | x in mets && x in exps && x in runs && x in explainers
              && Ran(rules, inferredMetrics, explainers[x], data, |data.rows|, runs[x], mets[x], exps[x])
  }

  /** An explainer whose tables were recorded did not raise from where its
      recorded run started: its turn went through. */
  lemma RecordedExcludesRaise(rules: seq<Rule>, inferredMetrics: bool, explainers: map<string, Explainer>, data: Frame,
                              runs: map<string, Run>, avg: map<string, Metrics>, mets: map<string, map<string, Metrics>>,
                              exps: map<string, map<string, PyVal>>, x: string, err: Error)
    requires AllAggregated(avg, mets, exps, RowKey, |data.rows|)
    requires x in avg && avg.Keys <= Recorded(rules, inferredMetrics, explainers, data, runs, mets, exps)
    ensures x in explainers && x in runs && |runs[x].states| > 0 && |runs[x].attrs| > 0
    ensures !RowsRaise(rules, inferredMetrics, explainers[x], data, runs[x].states[0], runs[x].attrs[0], err)
  {
    assert Aggregated(avg[x], mets[x], exps[x], RowKey, |data.rows|);
    RunExcludesRaise(rules, inferredMetrics, explainers[x], data, runs[x], mets[x], exps[x], err);
  }

  /** The tables after the turns of the first `j` explainers: every entry
      is a complete run over the rows, the tables hold exactly the first
      `j` names, each one's tables produced by its recorded run, and the run
      of an explainer registered under one name starts where `starts` says. */
  ghost predicate Progress(rules: seq<Rule>, inferredMetrics: bool, names: seq<string>, explainers: map<string, Explainer>,
                           data: Frame, starts: map<string, (PyVal, Attrs)>, avg: map<string, Metrics>,
                           mets: map<string, map<string, Metrics>>, exps: map<string, map<string, PyVal>>,
                           runs: map<string, Run>, j: nat)
  {
    AllAggregated(avg, mets, exps, RowKey, |data.rows|)
    && j <= |names| && (forall x :: x in avg <==> x in names[..j]) && runs.Keys == avg.Keys
    && avg.Keys <= Recorded(rules, inferredMetrics, explainers, data, runs, mets, exps)
    && (forall x :: x in runs && Unshared(explainers, x) ==> x in starts && StartsAt(runs[x], starts[x].0, starts[x].1))
  }

  lemma ProgressIntro(rules: seq<Rule>, inferredMetrics: bool, names: seq<string>, explainers: map<string, Explainer>,
                      data: Frame, starts: map<string, (PyVal, Attrs)>, avg: map<string, Metrics>,
                      mets: map<string, map<string, Metrics>>, exps: map<string, map<string, PyVal>>,
                      runs: map<string, Run>, j: nat)
    requires AllAggregated(avg, mets, exps, RowKey, |data.rows|)
    requires j <= |names| && (forall x :: x in avg <==> x in names[..j]) && runs.Keys == avg.Keys
    requires avg.Keys <= Recorded(rules, inferredMetrics, explainers, data, runs, mets, exps)
    requires forall x :: x in runs && Unshared(explainers, x) ==> x in starts && StartsAt(runs[x], starts[x].0, starts[x].1)
    ensures Progress(rules, inferredMetrics, names, explainers, data, starts, avg, mets, exps, runs, j)
  {
  }

  /** What the explainer loop of `explain_instances` leaves behind, given
      `starts`, the explainers' states before it. The tables of the first
      `done` explainers in insertion order, and of no others, are stored,
      averaged over every row, and each was produced by a recorded run of
      its explainer; for an explainer registered under one name that run
      started from the state `starts` gives. The loop went through exactly
      when every explainer finished. When it raised, a row of explainer
      `done` raised the error from `turn`, the state that explainer's turn
      started in, which is the state `starts` gives when it is registered
      under one name. */
  ghost predicate Explained<T>(rules: seq<Rule>, inferredMetrics: bool, names: seq<string>, explainers: map<string, Explainer>,
                               data: Frame, starts: map<string, (PyVal, Attrs)>, r: Result<T, Error>, avg: map<string, Metrics>,
                               mets: map<string, map<string, Metrics>>, exps: map<string, map<string, PyVal>>,
                               runs: map<string, Run>, done: nat, turn: (PyVal, Attrs))
  {
    Progress(rules, inferredMetrics, names, explainers, data, starts, avg, mets, exps, runs, done)
    && (r.Ok? <==> done == |names|)
    && (r.Err? ==> names[done] in explainers
                   && RowsRaise(rules, inferredMetrics, explainers[names[done]], data, turn.0, turn.1, r.error))
    && (r.Err? && Unshared(explainers, names[done]) ==> names[done] in starts && turn == starts[names[done]])
  }

  /** Storing one more explainer's tables, produced by `run`, keeps the
      other recorded explainers, whose tables stay as they were. */
  lemma RecordedStep(rules: seq<Rule>, inferredMetrics: bool, explainers: map<string, Explainer>, data: Frame,
                     runs: map<string, Run>, avg: map<string, Metrics>, mets: map<string, map<string, Metrics>>,
                     exps: map<string, map<string, PyVal>>, name: string, run: Run, avg': map<string, Metrics>,
                     mets': map<string, map<string, Metrics>>, exps': map<string, map<string, PyVal>>)
    requires avg.Keys <= Recorded(rules, inferredMetrics, explainers, data, runs, mets, exps)
    requires avg'.Keys == mets'.Keys == exps'.Keys
    requires forall x :: x in avg' ==> x in avg || x == name
    requires forall x :: x in avg && x != name ==> x in avg' && avg'[x] == avg[x] && mets'[x] == mets[x] && exps'[x] == exps[x]
    requires name in Recorded(rules, inferredMetrics, explainers, data, runs[name := run], mets', exps')
    ensures avg'.Keys <= Recorded(rules, inferredMetrics, explainers, data, runs[name := run], mets', exps')
  {
    forall x | x in avg' && x != name
      ensures x in Recorded(rules, inferredMetrics, explainers, data, runs[name := run], mets', exps')
    {
      assert x in Recorded(rules, inferredMetrics, explainers, data, runs, mets, exps);
      assert runs[name := run][x] == runs[x];
    }
  }
}
