/** The bookkeeping both comparators share: a `defaultdict(float)` of
    running sums that every row's report is added into, and the averages
    taken by dividing each sum by the number of rows. */
module Aggregation {
  import opened Values
  import opened Sets

  /** One report or one running-sum table: metric name to value. */
  type Metrics = map<string, PyVal>

  /** Every value is a number or NaN, as a running sum always is. */
  predicate Numeric(sums: Metrics)
  {
    forall m :: m in sums ==> sums[m].NaN? || sums[m].Num?
  }

  /** `sums[m]` of a `defaultdict(float)`: a missing key reads as 0.0. */
  function SumSoFar(sums: Metrics, m: string): PyVal
  {
    if m in sums then sums[m] else Num(0.0)
  }

  /** Every pair of `report` named in `keys` can be added to its sum. */
  predicate Addable(sums: Metrics, report: Metrics, keys: set<string>)
    requires keys <= report.Keys
  {
    forall m :: m in keys ==> PyAdd(SumSoFar(sums, m), report[m]).Ok?
  }

  /** The sums once the pairs of `report` named in `done` have been added. */
  function AddedFor(sums: Metrics, report: Metrics, done: set<string>): (r: Metrics)
    requires done <= report.Keys && Addable(sums, report, done)
    ensures r.Keys == sums.Keys + done
  {
    map m | m in sums.Keys + done :: if m in done then PyAdd(SumSoFar(sums, m), report[m]).value else sums[m]
  }

  /** Adding one more pair of the report updates just its own key. */
  lemma AddedForStep(sums: Metrics, report: Metrics, done: set<string>, m: string, acc: Metrics)
    requires done <= report.Keys && m in report && m !in done
    requires Addable(sums, report, done) && acc == AddedFor(sums, report, done)
    requires PyAdd(SumSoFar(acc, m), report[m]).Ok?
    ensures Addable(sums, report, done + {m})
    ensures acc[m := PyAdd(SumSoFar(acc, m), report[m]).value] == AddedFor(sums, report, done + {m})
  {
    assert SumSoFar(acc, m) == SumSoFar(sums, m);
    var big := AddedFor(sums, report, done + {m});
    var small := acc[m := PyAdd(SumSoFar(acc, m), report[m]).value];
    assert big.Keys == small.Keys;
    forall k | k in big
      ensures big[k] == small[k]
    {
    }
  }

  /** A pair whose addition fails leaves the whole report unaddable. */
  lemma NotAddable(sums: Metrics, report: Metrics, done: set<string>, m: string, acc: Metrics)
    requires done <= report.Keys && m in report && m !in done
    requires Addable(sums, report, done) && acc == AddedFor(sums, report, done)
    requires PyAdd(SumSoFar(acc, m), report[m]).Err?
    ensures Accumulate(sums, report) == Err(TypeError)
  {
    assert SumSoFar(acc, m) == SumSoFar(sums, m);
  }

  /** The sums after `sums[m] += v` for every pair of one report. */
  function Accumulate(sums: Metrics, report: Metrics): (r: Result<Metrics, Error>)
    ensures r.Ok? && Numeric(sums) ==> Numeric(r.value)
  {
    if Addable(sums, report, report.Keys) then
      Ok(AddedFor(sums, report, report.Keys))
    else Err(TypeError)
  }

  /** Every addition touches its own key, so the order of the pairs does
      not matter: the report adds up exactly when each of its values adds
      to its sum, an addition that fails is always a TypeError, and the
      keys the report does not name keep their sums. */
  lemma AccumulateSpec(sums: Metrics, report: Metrics)
    ensures Accumulate(sums, report).Ok? <==> forall m :: m in report ==> PyAdd(SumSoFar(sums, m), report[m]).Ok?
    ensures Accumulate(sums, report).Err? ==> Accumulate(sums, report).error == TypeError
    ensures Accumulate(sums, report).Ok? ==> Accumulate(sums, report).value.Keys == sums.Keys + report.Keys
    ensures Accumulate(sums, report).Ok? ==>
      forall m :: m in sums && m !in report ==> Accumulate(sums, report).value[m] == sums[m]
    ensures Accumulate(sums, report).Ok? ==>
      forall m :: m in report ==> Ok(Accumulate(sums, report).value[m]) == PyAdd(SumSoFar(sums, m), report[m])
  {
  }

  /** Once every pair is added, the sums are the accumulated table. */
  lemma AddedAll(sums: Metrics, report: Metrics, acc: Metrics)
    requires Addable(sums, report, report.Keys) && acc == AddedFor(sums, report, report.Keys)
    ensures Accumulate(sums, report) == Ok(acc)
  {
  }

  /** The loop `for (metric, value) in report: sums[metric] += value;
      explanation_metrics[metric] = value`, in whatever order the report
      yields its pairs. The second dictionary it fills ends up holding
      exactly the report, so the callers store the report for it; this
      method returns the new sums. */
  method Tally(sums: Metrics, report: Metrics) returns (r: Result<Metrics, Error>)
    ensures r == Accumulate(sums, report)
  {
    var acc := sums;
    var done: set<string> := {};
    while done != report.Keys
      invariant done <= report.Keys
      invariant Addable(sums, report, done)
      invariant acc == AddedFor(sums, report, done)
      decreases |report.Keys| - |done|
    {
      var m :| m in report.Keys && m !in done;
      var added := PyAdd(SumSoFar(acc, m), report[m]);
      if added.Err? {
        NotAddable(sums, report, done, m, acc);
        return Err(TypeError);
      }
      AddedForStep(sums, report, done, m, acc);
      OneMore(done, report.Keys, m);
      acc := acc[m := added.value];
      done := done + {m};
    }
    AddedAll(sums, report, acc);
    r := Ok(acc);
  }

  /** The running sums after adding the reports of `rows` in order,
      starting from an empty table; they only ever hold numbers and NaN. */
  function SumRows(rows: seq<Metrics>): (r: Result<Metrics, Error>)
    decreases |rows|
    ensures r.Ok? ==> Numeric(r.value)
  {
    if rows == [] then Ok(map[])
    else
      match SumRows(rows[..|rows| - 1])
      case Err(e) => Err(e)
      case Ok(sums) => Accumulate(sums, rows[|rows| - 1])
  }

  /** Adding one more row's report to the table of the rows before it. */
  lemma SumRowsSnoc(rows: seq<Metrics>, row: Metrics)
    requires SumRows(rows).Ok?
    ensures SumRows(rows + [row]) == Accumulate(SumRows(rows).value, row)
  {
    assert (rows + [row])[..|rows|] == rows;
  }

  /** When all the rows add up, so does every prefix of them. */
  lemma {:induction false} SumRowsPrefix(rows: seq<Metrics>, k: nat)
    requires k <= |rows| && SumRows(rows).Ok?
    ensures SumRows(rows[..k]).Ok?
  {
    if k < |rows| {
      assert rows[..|rows| - 1][..k] == rows[..k];
      SumRowsPrefix(rows[..|rows| - 1], k);
    } else {
      assert rows[..k] == rows;
    }
  }

  /** The sum of one metric over the rows that report it, as an
      independent reference: a left fold of Python `+` from 0.0. */
  function MetricSum(rows: seq<Metrics>, m: string): Outcome
    decreases |rows|
  {
    if rows == [] then Ok(Num(0.0))
    else
      match MetricSum(rows[..|rows| - 1], m)
      case Err(e) => Err(e)
      case Ok(acc) => if m in rows[|rows| - 1] then PyAdd(acc, rows[|rows| - 1][m]) else Ok(acc)
  }

  /** The shared table agrees with summing each metric on its own: it exists
      exactly when every per-metric sum does, its keys are the names some
      row reports, and each entry is that metric's sum. */
  lemma {:induction false} SumRowsPerMetric(rows: seq<Metrics>)
    decreases |rows|
    ensures SumRows(rows).Ok? <==> forall m :: MetricSum(rows, m).Ok?
    ensures SumRows(rows).Ok? ==>
      forall m :: m in SumRows(rows).value <==> exists i :: 0 <= i < |rows| && m in rows[i]
    ensures SumRows(rows).Ok? ==>
      forall m :: MetricSum(rows, m) == Ok(SumSoFar(SumRows(rows).value, m))
  {
    if rows != [] {
      var init := rows[..|rows| - 1];
      var last := rows[|rows| - 1];
      SumRowsPerMetric(init);
      assert forall i :: 0 <= i < |init| ==> init[i] == rows[i];
      match SumRows(init)
      case Err(_) =>
        var m :| MetricSum(init, m).Err?;
        assert MetricSum(rows, m).Err?;
      case Ok(sums) =>
        AccumulateSpec(sums, last);
        if Accumulate(sums, last).Err? {
          var m :| m in last && PyAdd(SumSoFar(sums, m), last[m]).Err?;
          assert MetricSum(rows, m).Err?;
        } else {
          var total := Accumulate(sums, last).value;
          forall m
            ensures MetricSum(rows, m) == Ok(SumSoFar(total, m))
          {
          }
          forall m | m in total
            ensures exists i :: 0 <= i < |rows| && m in rows[i]
          {
            if m !in last {
              var i :| 0 <= i < |init| && m in init[i];
              assert m in rows[i];
            }
          }
        }
    }
  }

  /** `{metric: value / n for metric, value in sums.items()}`. */
  function Averages(sums: Metrics, n: nat): (r: Metrics)
    requires n > 0 || sums == map[]
    requires Numeric(sums)
    ensures r.Keys == sums.Keys
    ensures forall m :: m in sums ==> Ok(r[m]) == PyDivBy(sums[m], n)
  {
    map m | m in sums :: PyDivBy(sums[m], n).value
  }

  /** Each average is the metric's sum over the rows that report it,
      divided by the number of all rows, reporting or not. */
  lemma AverageOverAllRows(rows: seq<Metrics>, m: string)
    requires |rows| > 0 && SumRows(rows).Ok?
    requires exists i :: 0 <= i < |rows| && m in rows[i]
    ensures m in Averages(SumRows(rows).value, |rows|)
    ensures MetricSum(rows, m).Ok?
    ensures Ok(Averages(SumRows(rows).value, |rows|)[m]) == PyDivBy(MetricSum(rows, m).value, |rows|)
  {
    SumRowsPerMetric(rows);
  }

  /** A metric reported by one row out of two is halved: a row that does
      not report it still counts in the divisor. */
  lemma AverageCountsSilentRows()
    ensures var rows := [map["coverage" := Num(0.4)], map[]];
      SumRows(rows).Ok? && Averages(SumRows(rows).value, 2) == map["coverage" := Num(0.2)]
  {
    var rows: seq<Metrics> := [map["coverage" := Num(0.4)], map[]];
    assert rows[..1] == [map["coverage" := Num(0.4)]];
    assert rows[..1][..0] == [];
    AccumulateSpec(map[], map["coverage" := Num(0.4)]);
    var one := Accumulate(map[], map["coverage" := Num(0.4)]).value;
    AccumulateSpec(one, map[]);
    assert one == map["coverage" := Num(0.4)];
    assert SumRows(rows[..1]) == Ok(one);
    assert Accumulate(one, map[]).value.Keys == one.Keys;
    assert Accumulate(one, map[]).value == one;
    var avg := Averages(one, 2);
    assert avg["coverage"] == Num(0.2);
    assert avg == map["coverage" := Num(0.2)];
  }

  /** The rows `0 .. n-1` of a per-row table keyed by `key(i)`. */
  predicate HasRows<K>(stored: map<K, Metrics>, key: nat -> K, n: nat)
  {
    forall i :: 0 <= i < n ==> key(i) in stored
  }

  function StoredRows<K>(stored: map<K, Metrics>, key: nat -> K, n: nat): (rows: seq<Metrics>)
    requires HasRows(stored, key, n)
    ensures |rows| == n && forall i :: 0 <= i < n ==> rows[i] == stored[key(i)]
  {
    if n == 0 then [] else StoredRows(stored, key, n - 1) + [stored[key(n - 1)]]
  }

  /** The keys `key(0) .. key(n-1)`. */
  function RowKeys<K>(key: nat -> K, n: nat): set<K>
  {
    if n == 0 then {} else RowKeys(key, n - 1) + {key(n - 1)}
  }

  lemma {:induction false} RowKeysMembers<K>(key: nat -> K, n: nat)
    ensures forall i :: 0 <= i < n ==> key(i) in RowKeys(key, n)
    ensures forall k :: k in RowKeys(key, n) ==> exists i :: 0 <= i < n && k == key(i)
  {
    if n > 0 {
      RowKeysMembers(key, n - 1);
      forall k | k in RowKeys(key, n)
        ensures exists i :: 0 <= i < n && k == key(i)
      {
        if k != key(n - 1) {
          var i :| 0 <= i < n - 1 && k == key(i);
        }
      }
    }
  }

  /** What one explainer leaves behind after a successful run over `n` rows:
      one metric map and one explanation per row under its key, and
      averages that are the row sums divided by `n`. */
  ghost predicate Aggregated<K>(avg: Metrics, stored: map<K, Metrics>, explanations: map<K, PyVal>, key: nat -> K, n: nat)
  {
    stored.Keys == RowKeys(key, n) && explanations.Keys == RowKeys(key, n)
    && HasRows(stored, key, n)
    && SumRows(StoredRows(stored, key, n)).Ok?
    && avg == Averages(SumRows(StoredRows(stored, key, n)).value, n)
  }

  /** Different rows are stored under different keys. */
  ghost predicate Injective<K>(key: nat -> K)
  {
    forall a: nat, b: nat :: key(a) == key(b) ==> a == b
  }

  /** The state of a row loop after `i` rows: one metric map and one
      explanation stored per row, and the sums of the reports so far. */
  ghost predicate RowsSoFar<K>(sums: Metrics, stored: map<K, Metrics>, explanations: map<K, PyVal>,
                               rows: seq<Metrics>, key: nat -> K, i: nat)
  {
    |rows| == i
    && stored.Keys == RowKeys(key, i) && explanations.Keys == RowKeys(key, i)
    && HasRows(stored, key, i)
    && (forall k :: 0 <= k < i ==> stored[key(k)] == rows[k])
    && SumRows(rows) == Ok(sums)
  }

  lemma RowsStep<K>(sums: Metrics, stored: map<K, Metrics>, explanations: map<K, PyVal>,
                    rows: seq<Metrics>, key: nat -> K, i: nat, report: Metrics, explanation: PyVal, sums': Metrics)
    requires Injective(key)
    requires RowsSoFar(sums, stored, explanations, rows, key, i)
    requires Accumulate(sums, report) == Ok(sums')
    ensures RowsSoFar(sums', stored[key(i) := report], explanations[key(i) := explanation],
                      rows + [report], key, i + 1)
  {
    SumRowsSnoc(rows, report);
  }

  /** Tables that agree on the first `m` rows of tables whose `n` rows add
      up add up over those `m` rows. */
  lemma SumRowsAgreeingPrefix<K>(stored: map<K, Metrics>, stored': map<K, Metrics>, key: nat -> K, n: nat, m: nat)
    requires m <= n && HasRows(stored, key, n) && HasRows(stored', key, m)
    requires forall k :: 0 <= k < m ==> stored'[key(k)] == stored[key(k)]
    requires SumRows(StoredRows(stored, key, n)).Ok?
    ensures SumRows(StoredRows(stored', key, m)).Ok?
  {
    var all := StoredRows(stored, key, n);
    assert StoredRows(stored', key, m) == all[..m];
    SumRowsPrefix(all, m);
  }

  /** The rows stored so far are the rows added up so far. */
  lemma StoredRowsSoFar<K>(sums: Metrics, stored: map<K, Metrics>, explanations: map<K, PyVal>,
                           rows: seq<Metrics>, key: nat -> K, i: nat)
    requires RowsSoFar(sums, stored, explanations, rows, key, i)
    ensures StoredRows(stored, key, i) == rows && SumRows(StoredRows(stored, key, i)) == Ok(sums)
  {
  }

  /** Storing row `i` extends the stored rows by it. */
  lemma StoredRowsSnoc<K>(stored: map<K, Metrics>, key: nat -> K, i: nat, row: Metrics)
    requires Injective(key) && HasRows(stored, key, i)
    ensures HasRows(stored[key(i) := row], key, i + 1)
    ensures StoredRows(stored[key(i) := row], key, i + 1) == StoredRows(stored, key, i) + [row]
  {
    StoredRowsKept(stored, key, i, row);
  }

  /** Storing row `i` leaves the rows before it as they were. */
  lemma StoredRowsKept<K>(stored: map<K, Metrics>, key: nat -> K, i: nat, row: Metrics)
    requires Injective(key) && HasRows(stored, key, i)
    ensures HasRows(stored[key(i) := row], key, i)
    ensures StoredRows(stored[key(i) := row], key, i) == StoredRows(stored, key, i)
  {
    var stored' := stored[key(i) := row];
    forall k | 0 <= k < i
      ensures stored'[key(k)] == stored[key(k)]
    {
      assert key(k) != key(i);
    }
  }

  lemma RowsDone<K>(sums: Metrics, stored: map<K, Metrics>, explanations: map<K, PyVal>,
                    rows: seq<Metrics>, key: nat -> K, n: nat)
    requires RowsSoFar(sums, stored, explanations, rows, key, n)
    ensures n > 0 || sums == map[]
    ensures Numeric(sums)
    ensures Aggregated(Averages(sums, n), stored, explanations, key, n)
  {
    assert StoredRows(stored, key, n) == rows;
  }

  /** The result tables of a comparator agree on their keys and every entry
      is a complete run of one explainer over `n` rows. */
  ghost predicate AllAggregated<K>(averaged: map<string, Metrics>, metrics: map<string, map<K, Metrics>>,
                                   explanations: map<string, map<K, PyVal>>, key: nat -> K, n: nat)
  {
    averaged.Keys == metrics.Keys == explanations.Keys
    && forall x {:trigger Aggregated(averaged[x], metrics[x], explanations[x], key, n)} ::
         x in averaged ==> Aggregated(averaged[x], metrics[x], explanations[x], key, n)
  }

  lemma AllAggregatedStep<K>(averaged: map<string, Metrics>, metrics: map<string, map<K, Metrics>>,
                             explanations: map<string, map<K, PyVal>>, key: nat -> K, n: nat,
                             name: string, avg: Metrics, stored: map<K, Metrics>, expl: map<K, PyVal>)
    requires AllAggregated(averaged, metrics, explanations, key, n)
    requires Aggregated(avg, stored, expl, key, n)
    ensures AllAggregated(averaged[name := avg], metrics[name := stored], explanations[name := expl], key, n)
  {
    var a, m, e := averaged[name := avg], metrics[name := stored], explanations[name := expl];
    forall x | x in a
      ensures Aggregated(a[x], m[x], e[x], key, n)
    {
      if x != name {
        assert a[x] == averaged[x] && m[x] == metrics[x] && e[x] == explanations[x];
        assert Aggregated(averaged[x], metrics[x], explanations[x], key, n);
      }
    }
  }

  /** No name occurs twice in `names`. */
  ghost predicate Distinct(names: seq<string>)
  {
    |names| == 0 || (names[|names| - 1] !in names[..|names| - 1] && Distinct(names[..|names| - 1]))
  }

  /** `Distinct` says that any two positions hold different names. */
  lemma {:induction false} DistinctPairs(names: seq<string>)
    ensures Distinct(names) <==> forall a, b :: 0 <= a < b < |names| ==> names[a] != names[b]
  {
    if |names| > 0 {
      var init := names[..|names| - 1];
      DistinctPairs(init);
      assert forall a :: 0 <= a < |init| ==> init[a] == names[a];
      if forall a, b :: 0 <= a < b < |names| ==> names[a] != names[b] {
        assert names[|names| - 1] !in init by {
          forall a | 0 <= a < |init|
            ensures init[a] != names[|names| - 1]
          {
            assert names[a] != names[|names| - 1];
          }
        }
      }
    }
  }

  /** Appending a name not yet present keeps the names distinct. */
  lemma DistinctAppend(names: seq<string>, x: string)
    requires Distinct(names) && x !in names
    ensures Distinct(names + [x])
  {
    assert (names + [x])[..|names|] == names;
  }

  /** The names before position `j + 1` are those before `j` and then
      `names[j]`, which occurs nowhere else when names do not repeat. */
  lemma PrefixNext(names: seq<string>, j: nat)
    requires j < |names| && Distinct(names)
    ensures names[..j + 1] == names[..j] + [names[j]]
    ensures names[j] !in names[..j]
    ensures forall k :: 0 <= k < |names| && k != j ==> names[k] != names[j]
  {
    DistinctPairs(names);
    assert names[..j + 1] == names[..j] + [names[j]];
    forall k | 0 <= k < |names| && k != j
      ensures names[k] != names[j]
    {
      if k < j {
        assert names[k] != names[j];
      } else {
        assert names[j] != names[k];
      }
    }
    forall k | 0 <= k < j
      ensures names[..j][k] != names[j]
    {
      assert names[..j][k] == names[k];
    }
  }

  /** A finished turn `j` stores the tables under `names[j]` and keeps the
      others: the tables then hold exactly the first `j + 1` names, and so
      do the recorded runs. */
  lemma KeysTurn<V, W>(names: seq<string>, j: nat, avg: map<string, V>, runs: map<string, W>, avg': map<string, V>,
                       runs': map<string, W>)
    requires Distinct(names) && j < |names|
    requires (forall x :: x in avg <==> x in names[..j]) && runs.Keys == avg.Keys
    requires forall x :: x in avg' ==> x in avg || x == names[j]
    requires forall x :: x in avg && x != names[j] ==> x in avg'
    requires names[j] in avg' && names[j] in runs' && runs'.Keys == runs.Keys + {names[j]}
    ensures forall x :: x in avg' <==> x in names[..j + 1]
    ensures runs'.Keys == avg'.Keys
  {
    PrefixNext(names, j);
  }
}
