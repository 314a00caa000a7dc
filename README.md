# Astrapia core in Dafny

Astrapia benchmarks explanation methods for machine-learning models (LIME,
DLIME, Anchors, SP-LIME). An explainer reports **metrics**: coverage, accuracy,
balance, area and so on. A registry of **transfer rules** derives further
metrics from the ones an explainer defines. A **comparator** runs several
explainers over the rows of a table and averages their reports. This project
models that core, and the data plumbing around the explanation libraries, as
Dafny values, functions, lemmas and imperative methods. Both package
generations are covered: `astrapia/` and its older twin `xaibenchmark/`.

What is modelled, by module:

- **Tagging** (xaibenchmark/decorators.py): the `metric` and `utility`
  wrappers. A metric or utility that returns `None` reports NaN. `prop` is only
  a tag that the report code selects on; its decorator lives in
  astrapia/decorators.py, which is not part of this model.
- **Values, Text, Frames, Sets**: Python values, including NaN and the
  exceptions the core raises, together with the handful of Python operations
  it relies on (`+=`, `/`, `>`, `**`, `str()`, `int()`, `rsplit`). A pandas
  frame is represented as columns, an index and rows.
- **Objects**: `dir`/`getattr`/`setattr` over an explainer, made explicit as an
  attribute map. Each attribute carries a tag and a binding. Calls are
  evaluated with a recursion budget.
- **Transfer, TransferFunctions** (astrapia/transfer.py,
  astrapia/transfer_functions.py): the rule registry and the `use_transfer`
  fixpoint, written as a class with the `while` loop of the source. The two
  default rules, `area_norm` and `furthest_distance`, are included.
  xaibenchmark/transfer.py and xaibenchmark/transfer_functions.py contain the
  same code, so these modules model them as well.
- **ExplainerBase, LegacyExplainer** (astrapia/explainer.py,
  xaibenchmark/explainer.py): listing metrics and props, `infer_metrics` and
  `report`. The older class builds an inline four-rule graph.
- **Aggregation, Comparator, LegacyComparator** (astrapia/comparator.py,
  xaibenchmark/comparator.py): the comparator classes. Their methods reset and
  refill the result tables. The per-explainer sums and averages are included,
  as is sampler resolution.
- **ComparatorRuns, LegacyRuns**: the ghost record of the explainer loop, kept
  as one run per explainer: the states the explainer object passes through, row
  by row. Each stored report and explanation is tied to the `explain_instance`
  step of its row, and each run starts from the state the object had before
  the loop.
- **Utils, Lime, LimeMetrics, DLimeExplanation**: the one-hot encoding and its
  argmax decoding (astrapia/utils.py, astrapia/explainers/dlime.py,
  xaibenchmark/explainers/lime.py), together with the neighbourhood metrics of
  the LIME-family explainers and the DLIME explanation record
  (astrapia/explainers/DLime/explanation.py). The legacy `LimeExplainer`
  shares its inverse transform and metrics with `DLimeExplainer`, apart from
  the members prefixed `Legacy`.
- **Coding, Anchors, SpLime**: the category-to-position coding of numpy tables
  and its decoding (astrapia/explainers/anchors.py,
  astrapia/samplers/splime.py, and their xaibenchmark twins). This covers the
  Anchors explainer's transforms, predictor and metrics, and the SP-LIME
  sampler that turns picked explanations back into table rows.
- **Visualization** (astrapia/visualization.py): `normalize`,
  `normalize_balance`, `fill_in_value` and the metric selection of
  `print_metrics`.
- **LimePreprocessing, ArrayValues, AnchorsPreprocessing, AdultPreprocessing**
  (xaibenchmark/explainerPreprocessing.py,
  xaibenchmark/customAnchorsPreprocessing.py): `lime_preprocess_dataset(s)`,
  `map_array_values`, `replace_binary_values`, `load_csv_dataset` and the Adult
  census configuration of `load_dataset`/`anchors_preprocess_instance`.

Foreign code is passed in as parameters:

- the explanation libraries (LIME, Anchors, DLIME, submodular pick);
- the user's model and sklearn;
- the floating-point kernel;
- the clock.

Notable behaviours of the code, each proved in the model:

- **Metric inference can keep deriving.** Running inference again may add
  metrics, because utilities count as available only in the first pass
  (`Transfer.ClosureIsNotIdempotent`).
- **Later registrations win within a pass.** When two registered rules produce
  the same name in one pass, the later registration decides the binding
  (`Transfer.PassLastFiringWins`).
- **The inline engine does not check produced names.** The older engine has no
  produced-name check, so its last enabled rule wins
  (`Transfer.InlineClosureLastRuleWins`, `LegacyExplainer.TestDataAreaRuleWins`).
- **Averages use all rows.** A comparator average divides a metric's sum by
  the number of all rows, not by the number of rows that reported the metric
  (`Aggregation.AverageOverAllRows`).
- **Passing a sampler instance fails.** The astrapia comparator calls a
  sampler instance (astrapia/comparator.py:124-126), and that raises TypeError
  (`Comparator.ResolveSampler`).

## Model

| member | source | states |
|---|---|---|
| Values.PyAdd | astrapia/comparator.py:86 | the `+=` of metric sums: defined exactly on numbers and NaN (TypeError otherwise), NaN iff an operand is NaN, otherwise the numeric sum |
| Values.PyDivBy | astrapia/comparator.py:98 | the division of a sum by the row count: NaN stays NaN, numbers are divided, anything else is a TypeError |
| Values.PyGreater | astrapia/transfer_functions.py:10 | Python's `>` on values: false whenever NaN is involved, TypeError on non-numbers, otherwise the numeric comparison |
| Values.PyReciprocal | xaibenchmark/explainer.py:60 | `1 / coverage()`: ZeroDivisionError on zero, NaN on NaN, TypeError on non-numbers, otherwise the reciprocal |
| Values.PyPow | astrapia/transfer_functions.py:4 | `area ** exponent`: NaN on NaN, TypeError on non-numbers, otherwise the power function applied |
| Values.PyLen | astrapia/transfer_functions.py:4 | `len(x)`: defined on rows, tables, lists and strings (the element or row count), TypeError otherwise |
| Tagging.NanForNone | xaibenchmark/decorators.py:9-12 | the wrapper's result: `None` becomes NaN, every other result and every exception passes through, and the result is never `None` |
| Tagging.MetricDecorator | xaibenchmark/decorators.py:3-14 | the wrapper carries tag `metric`, returns NaN exactly where the function returns `None` and the function's own result (same arguments) everywhere else |
| Tagging.UtilityDecorator | xaibenchmark/decorators.py:16-28 | the same for tag `utility` |
| Tagging.Decorated | xaibenchmark/decorators.py:3-28 | an attribute keeps its tag; metric and utility attributes never return `None`, props and untagged callables return what the function returns |
| Tagging.DecoratorsKeepFalsyResults | xaibenchmark/decorators.py:10-12 | 0, False, NaN and exceptions are returned unchanged by both decorators |
| Objects.TaggedNames | astrapia/transfer.py:26 | the set comprehension over `dir(obj)`: exactly the attribute names whose tag is one of the given tags |
| Objects.Call | astrapia/transfer.py:16-17 | calling an attribute: a missing name is an AttributeError; metric and utility attributes never return `None`; a derived metric takes no arguments (TypeError), fails with RecursionError when the budget is spent, and an own prop or untagged method returns exactly what the method returns |
| Objects.Lookups | astrapia/transfer.py:16-17 | `[getattr(obj, req) for req in params]`: one bound attribute per name, in order, each behaving as calling that name on the object |
| Objects.DerivedCall | astrapia/transfer.py:16-17 | calling an attached metric evaluates the rule's function on the object's current prerequisite attributes in parameter order and turns `None` into NaN; a missing prerequisite raises AttributeError |
| Objects.Explainer.ExplainInstance | astrapia/explainer.py:39-46 | `explain_instance`: on success the new state is kept and the explanation returned; an exception leaves the object unchanged |
| Objects.Explainer.constructor | astrapia/explainer.py:6-11 | an explainer object starts with the given attribute table, state and methods |
| Objects.StartsStep | astrapia/comparator.py:74-102 | recording one more explainer's run keeps every run of an explainer registered under one name starting from the state it had before the loop |
| Objects.StartsTurn | astrapia/comparator.py:74-81 | a finished turn records a run that starts where its explainer waited, so every recorded run of an object registered under one name still starts from its state before the loop |
| Objects.TurnStep | astrapia/comparator.py:74-102 | a turn that changes only its own explainer keeps every finished object registered under one name in the last state of its run, and every later one in its state from before the loop |
| Objects.UnsharedApart | astrapia/comparator.py:74 | an explainer object registered under one name is not the object any other turn of the loop explains with |
| Transfer.Produced | astrapia/transfer.py:16-17 | every registered rule's produced name (the function's `__name__`) is in the set |
| Transfer.PassFrame | astrapia/transfer.py:31-33 | one pass only adds names the registry can produce, every changed binding is the derived metric of a rule that fired for that name, and every rule that fired leaves its name bound to a metric |
| Transfer.PassLastFiringWins | astrapia/transfer.py:31-33 | within one pass a later `setattr` overwrites an earlier one: the last firing rule for a name decides its binding |
| Transfer.PassKeepsAvailable | astrapia/transfer.py:32 | with the `transition[1] not in new_mu_identifiers` check a pass never rebinds a name available at its start |
| Transfer.PassGrowsMetrics | astrapia/transfer.py:31-36 | a pass keeps every metric a metric and adds the produced names of the rules that fired |
| Transfer.StablePassIsClosed | astrapia/transfer.py:30-36 | when a pass leaves the metric names equal to its available set, every rule whose prerequisites are metrics has its produced name a metric |
| Transfer.FixIsClosed | astrapia/transfer.py:30-36 | on loop exit (after at least one metric-only pass) the metric set is closed under every registered rule |
| Transfer.ClosureIsClosed | astrapia/transfer.py:20-36 | after `use_transfer` every rule whose prerequisites are all metrics has produced a metric |
| Transfer.PassGrows | astrapia/transfer.py:31-33 | one pass only adds names, never demotes a metric, and changes bindings only to rules' derived metrics |
| Transfer.GrowsTransitive | astrapia/transfer.py:30-36 | these growth facts compose across the loop's passes |
| Transfer.FixGrows | astrapia/transfer.py:30-36 | the later passes together only add producible names, keep metrics metrics, and only bind rules' derived metrics |
| Transfer.ClosureGrows | astrapia/transfer.py:20-36 | inference only adds names the registry can produce, never demotes a metric, and every binding it changes is a rule's derived metric |
| Transfer.FixKeepsMetrics | astrapia/transfer.py:32 | with the produced-name check, metrics present before the later passes keep their exact binding |
| Transfer.ClosureKeepsMetrics | astrapia/transfer.py:26-36 | `use_transfer` never replaces an explainer's own metric |
| Transfer.ClosureUsesUtilitiesOnce | astrapia/transfer.py:26-33 | a rule whose prerequisites are metrics or utilities at the start and whose name is new yields a metric: utilities count in the first pass |
| Transfer.FixEndsWithStablePass | astrapia/transfer.py:30-36 | the loop's last pass runs against the final metric names |
| Transfer.ClosureEndsWithStablePass | astrapia/transfer.py:30-36 | the whole inference ends with a pass against the final metric names |
| Transfer.InlineClosureLastRuleWins | xaibenchmark/explainer.py:66-76 | the inline engine (no produced-name check) leaves each name bound to the last enabled rule producing it |
| Transfer.ClosureIsNotIdempotent | astrapia/transfer.py:26-36 | running inference twice can derive more: a rule needing a utility and a metric that only the first pass derives fires only in a second run |
| Transfer.Registry.constructor | astrapia/transfer.py:6 | the registry starts empty |
| Transfer.Registry.AddTransfer | astrapia/transfer.py:9-17 | `add_transfer(f)` appends one rule: prerequisites the parameter names in declaration order, produced name `f.__name__` |
| Transfer.Registry.UseTransfer | astrapia/transfer.py:20-36 | `use_transfer(obj)` leaves the object's attributes equal to the inference closure over the registry |
| Transfer.RunPass | astrapia/transfer.py:31-33 | the `for` over the registry leaves the attributes equal to one pass against the names available at its start |
| Transfer.Infer | astrapia/transfer.py:26-36 | the `while` loop terminates and leaves the attributes equal to the closure: first pass over metrics and utilities, then metric-only passes until the metric names repeat |
| ExplainerBase.BaseInit | astrapia/explainer.py:13-17 | the base class cannot be instantiated: NotImplementedError |
| ExplainerBase.BaseExplainInstance | astrapia/explainer.py:39-46 | the base `explain_instance` raises NotImplementedError |
| ExplainerBase.BaseTransformsRoundTrip | astrapia/explainer.py:19-37 | the base `transform_dataset` and `inverse_transform_dataset` return copies, so they invert each other in both directions and change nothing |
| ExplainerBase.Metrics | astrapia/explainer.py:48-54 | `metrics()` lists exactly the metric-tagged names, each once, in `dir` (sorted) order |
| ExplainerBase.Props | astrapia/explainer.py:56-62 | `props()` lists exactly the prop-tagged names, each once, in `dir` order |
| ExplainerBase.InferMetrics | astrapia/explainer.py:64-75 | `infer_metrics()` leaves the attributes equal to the inference closure over the registry |
| ExplainerBase.SelectedByTag | astrapia/explainer.py:89-94 | the selected names are exactly the metrics and props (no tag), the metrics (`'metric'`) or the props (`'prop'`); a utility is never reported |
| ExplainerBase.CallAll | astrapia/explainer.py:98 | the report holds every selected attribute's value when none raises, keyed by name; otherwise an exception one of them raised propagates |
| ExplainerBase.Report | astrapia/explainer.py:77-99 | `report(tag, inferred_metrics)`: inference runs first when asked, an unknown tag raises ValueError, otherwise the selected attributes' values keyed by name |
| TransferFunctions.AreaNormValue | astrapia/transfer_functions.py:3-4 | `area_norm`: `area()` is called first and its exception propagates, then the explained instance; a zero-length instance raises ZeroDivisionError, otherwise `area ** (1 / len(instance))` |
| TransferFunctions.Distances | astrapia/transfer_functions.py:10 | the comprehension has one distance per neighbour, each the distance from the explained instance to that neighbour; over a non-empty neighbourhood an exception of `get_explained_instance` propagates unchanged |
| TransferFunctions.DistancesFirstError | astrapia/transfer_functions.py:10 | once the explained instance is fetched, the comprehension fails iff some neighbour's distance raises, and then with the exception of the first such neighbour |
| TransferFunctions.MaxFromBounds | astrapia/transfer_functions.py:10 | Python's `max` from a numeric start: defined iff every item is a number or NaN, returns the start or an item, numerically at least the start and every numeric item |
| TransferFunctions.FurthestDistanceBounds | astrapia/transfer_functions.py:9-10 | `furthest_distance` is a number at least 0 and at least the distance to every neighbourhood instance |
| TransferFunctions.FurthestDistanceOfEmptyNeighbourhood | astrapia/transfer_functions.py:10 | the two leading zeros make an empty neighbourhood give exactly 0 |
| TransferFunctions.AreaNorm | astrapia/transfer_functions.py:3 | the rule function is named `area_norm` with parameters `area`, `get_explained_instance` |
| TransferFunctions.FurthestDistance | astrapia/transfer_functions.py:9 | the rule function is named `furthest_distance` with parameters `distance`, `get_explained_instance`, `get_neighborhood_instance` |
| TransferFunctions.GenerateDefaultTransferFunctions | astrapia/transfer_functions.py:1-12 | registers `area_norm` and then `furthest_distance` at the end of the registry |
| TransferFunctions.ImportPackage | astrapia/__init__.py:4-8 | importing the package yields a registry holding exactly the two default rules, in that order |
| TransferFunctions.AttachedFurthestDistanceNonNegative | astrapia/transfer.py:33 | an inferred `furthest_distance` called on the object returns a number at least 0 whenever it does not raise |
| LegacyExplainer.InverseCoverageValue | xaibenchmark/explainer.py:60 | `1 / self.coverage()`: coverage's exception propagates, zero raises ZeroDivisionError, NaN stays NaN, otherwise the reciprocal |
| LegacyExplainer.ColumnCount | xaibenchmark/explainer.py:62-63 | `data.shape[1]`: a table's column count, IndexError on a one-dimensional row, AttributeError on anything else |
| LegacyExplainer.TransferGraph | xaibenchmark/explainer.py:59-64 | the four inline rules in their order, with their prerequisites and produced names (two producing `area_hc_normalised`) |
| LegacyExplainer.InferMetrics | xaibenchmark/explainer.py:56-78 | `infer_metrics()` leaves the attributes equal to the closure over the inline graph without the produced-name check |
| LegacyExplainer.Report | xaibenchmark/explainer.py:80-84 | `report()` returns every metric's value when none raises, and never infers |
| LegacyExplainer.TestDataAreaRuleWins | xaibenchmark/explainer.py:62-73 | with metric `area` and both data utilities, `area_hc_normalised` ends bound to the test-data rule (the later one) |
| Aggregation.Accumulate | astrapia/comparator.py:84-86 | adding one report into running sums that hold only numbers and NaN keeps them so |
| Aggregation.AccumulateSpec | astrapia/comparator.py:84-86 | the `+=` loop over one report, in any order: it succeeds iff every value adds to its sum (a missing sum reads as 0.0), a failure is a TypeError, the keys become the old keys plus the report's, unreported sums stay, reported ones become sum + value |
| Aggregation.Tally | astrapia/comparator.py:84-88 | the loop over the report's pairs, in the order the report yields them, equals the order-free accumulation |
| Aggregation.SumRows | astrapia/comparator.py:75-94 | the running sums after all rows hold only numbers and NaN |
| Aggregation.SumRowsSnoc | astrapia/comparator.py:80-88 | one more row adds its report into the sums of the rows before it |
| Aggregation.SumRowsPerMetric | astrapia/comparator.py:75-88 | the shared `defaultdict` agrees with summing each metric on its own: it exists iff every per-metric sum does, its keys are exactly the metrics some row reports, each entry is that metric's sum |
| Aggregation.Averages | astrapia/comparator.py:97-98 | the averages have the sums' keys and each is the sum divided by the row count (NaN stays NaN) |
| Aggregation.AverageOverAllRows | astrapia/comparator.py:96-98 | each average is the metric's sum over the rows that report it divided by the number of all rows |
| Aggregation.AverageCountsSilentRows | astrapia/comparator.py:97-98 | a metric reported by one row of two with value 0.4 averages to 0.2: silent rows count in the divisor |
| Aggregation.StoredRows | astrapia/comparator.py:90 | the stored per-row reports read back in row order |
| Aggregation.RowKeysMembers | astrapia/comparator.py:90-91 | the per-row tables are keyed by exactly the keys of rows 0 .. n-1 |
| Aggregation.RowsStep | astrapia/comparator.py:80-91 | one iteration of the row loop stores the report and explanation under the row's key and adds the report into the sums |
| Aggregation.RowsDone | astrapia/comparator.py:96-102 | after the last row the averages, the stored reports and the explanations form one explainer's complete result |
| Aggregation.AllAggregatedStep | astrapia/comparator.py:100-102 | storing one explainer's results keeps every other explainer's entries complete |
| Aggregation.DistinctPairs | astrapia/comparator.py:53 | the explainer names, the keys of a dict in insertion order, repeat nowhere: the recursive form and the pairwise form say the same |
| Aggregation.DistinctAppend | astrapia/comparator.py:53 | storing under a name not yet present appends it and keeps the names distinct |
| Aggregation.PrefixNext | astrapia/comparator.py:74 | the explainers visited before turn `j + 1` are those before turn `j` and then `names[j]`, which is visited at no other turn |
| ComparatorRuns.RowKeyInjective | astrapia/comparator.py:90-91 | `str(index)` keys of different rows differ |
| ComparatorRuns.RanStored | astrapia/comparator.py:90-91 | storing a later row's report and explanation leaves a recorded run over the earlier rows intact |
| ComparatorRuns.RanStep | astrapia/comparator.py:80-91 | a recorded run over rows 0 .. i-1 followed by `explain_instance` on row `i`, the report after it and the entries stored under `str(i)` is a recorded run over rows 0 .. i |
| ComparatorRuns.RanRows | astrapia/comparator.py:80-91 | in a recorded run over n rows, row `i` took the object from the i-th state to the next one through `explain_instance` on `instances.iloc[[i]]`, and the report (after inference when asked) and the explanation stored under `str(i)` are what that step produced |
| ComparatorRuns.RecordedStep | astrapia/comparator.py:100-102 | storing one more explainer's three tables, produced by its run, keeps the entries of the explainers stored before it tied to their runs |
| ComparatorRuns.StepRaises | astrapia/comparator.py:80-84 | a row whose `explain_instance` or report raises, after a run over the rows before it, makes the row loop raise that error |
| ComparatorRuns.TallyRaises | astrapia/comparator.py:84-86 | a row that goes through but whose report cannot be added into the sums makes the row loop raise that error |
| ComparatorRuns.StepDeterministic | astrapia/comparator.py:80-84 | one row explained from one state and attribute table has exactly one outcome: state, attributes, report and explanation |
| ComparatorRuns.RunsAgree | astrapia/comparator.py:80-91 | two recorded runs from the same start pass through the same states and store the same reports |
| ComparatorRuns.RunExcludesRaise | astrapia/comparator.py:75-98 | a run over every row whose reports add up rules out any failing row from the same start: the loop cannot both finish and raise |
| ComparatorRuns.RecordedExcludesRaise | astrapia/comparator.py:74-102 | an explainer whose tables were stored did not raise from where its recorded run started |
| Comparator.ResolveSampler | astrapia/comparator.py:120-133 | `'random'` and `'splime'` select their sampler classes; another name raises NameError; a sampler instance is called and raises TypeError, and any other value raises TypeError in the message concatenation |
| Comparator.ExplainRow | astrapia/comparator.py:81-84 | one row: it raises exactly when `explain_instance` raises (that exception, unchanged) or, after it, the metric report raises (one of the report's exceptions); otherwise the new state and explanation are what `explain_instance` returned from the old state, the attributes are inferred exactly when `inferred_metrics` is set, and the report is the `metric` report of the object as it then is |
| Comparator.NextRow | astrapia/comparator.py:80-94 | one pass of the row loop: the row either raises, and then the rows raise from where the run started, or its report is added and the run grows by the state the row leaves the object in |
| Comparator.ExplainRows | astrapia/comparator.py:75-98 | the row loop raises exactly when some row, reached by a recorded run over the rows before it, raises in its step or in the `+=` of its report, and then with that error; otherwise the per-row tables and averages are complete over all rows and were produced by a recorded run of `explain_instance` over the rows in order, which starts from the object's state before the loop and ends in the state the object is left in |
| Comparator.ExplainOne | astrapia/comparator.py:74-102 | one explainer's turn stores its three tables, produced by a recorded run over all rows that starts from the state the object had when its turn came and ends in the state it is left in, and keeps every other entry; it raises only when one of its rows raises from that state, and then leaves the tables unchanged; no other registered object changes state |
| Comparator.NextTurn | astrapia/comparator.py:100-102 | after a finished turn the tables hold exactly the first j+1 names, each still produced by its recorded run |
| Comparator.ExplainNext | astrapia/comparator.py:74-102 | turn `j` of the explainer loop: on success the stored explainers are exactly the first j+1 names, each tied to its recorded run; it raises only when a row of explainer `names[j]` raises from the state its turn started in, and then nothing changes; only this explainer's object changes, so every finished explainer registered under one name stays in the state its run ended in, and every later one still holds its state from before the loop |
| Comparator.ExplainAll | astrapia/comparator.py:74-102 | the loop succeeds exactly when all explainers finish; the stored explainers are the first `done` in insertion order, each entry produced by a recorded run of that explainer over every row (so none of them raised); when it raises, a row of explainer `names[done]` raised that error from the state its turn started in; an explainer registered under one name starts from the state it had before the call, and ends in the last state of its run when it finished, or keeps that first state when its turn never came |
| Comparator.ExplainerComparator.constructor | astrapia/comparator.py:16-38 | a new comparator has no explainers, properties or results, no instances and an empty timestamp |
| Comparator.ExplainerComparator.AddExplainer | astrapia/comparator.py:40-54 | the prop report is taken without inference; when it raises nothing is registered; otherwise the explainer and its properties are stored under the name (the last one wins, keeping its position) and the results are untouched |
| Comparator.ExplainerComparator.ExplainInstances | astrapia/comparator.py:56-103 | the result tables are reset and the instances kept; the stored explainers are the first `done` in insertion order (all of them exactly on success), each entry produced by a recorded run of `explain_instance` over all rows; an exception is one a row of explainer `names[done]` raised from the state its turn started in, which for an explainer registered under one name is its state before the call; such an explainer is left in the last state of its run when it finished, and untouched when its turn never came; the timestamp is set only on success |
| Comparator.ExplainerComparator.Store | astrapia/comparator.py:100-103 | the tables and the instances are stored, the registry is kept, the timestamp is taken only when every explainer finished, and no explainer object changes |
| Comparator.ExplainerComparator.ExplainRepresentative | astrapia/comparator.py:105-143 | a sampler that cannot be resolved raises and changes nothing, explainer objects included; a sampling error propagates and changes nothing; otherwise the samples are explained with the same guarantees as `explain_instances` on them, failure direction and end states included, and returned only when asked |
| Comparator.ExplainerComparator.GetMetricData | astrapia/comparator.py:157-164 | the timestamp, the explainer names (exactly the registered ones), the properties and both metric tables |
| Comparator.StoredAverage | astrapia/comparator.py:96-100 | for every explainer and every metric some row reported, the stored average is that metric's sum divided by the number of all rows |
| Comparator.AveragedNames | astrapia/comparator.py:96-100 | the averages name exactly the metrics some row reported |
| LegacyRuns.RanStored | xaibenchmark/comparator.py:50-51 | storing a later row's report and explanation leaves a recorded run over the earlier rows intact |
| LegacyRuns.RanStep | xaibenchmark/comparator.py:38-51 | a recorded run over rows 0 .. i-1 followed by `explain_instance`, `report()`, `infer_metrics()` and `report()` on row `i`, stored under `i`, is a recorded run over rows 0 .. i |
| LegacyRuns.RanRows | xaibenchmark/comparator.py:38-51 | in a recorded run over n rows, row `i` took the object from the i-th state to the next one through `explain_instance` and inference, and the report and explanation stored under `i` are what that step produced |
| LegacyRuns.RecordedStep | xaibenchmark/comparator.py:57-59 | storing one more explainer's tables keeps the entries of the explainers stored before it tied to their runs |
| LegacyRuns.StepRaises | xaibenchmark/comparator.py:38-44 | a row whose `explain_instance`, first report or report after inference raises, after a run over the rows before it, makes the row loop raise that error |
| LegacyRuns.TallyRaises | xaibenchmark/comparator.py:45-47 | a row that goes through but whose report cannot be added into the sums makes the row loop raise that error |
| LegacyRuns.StepDeterministic | xaibenchmark/comparator.py:38-44 | one row explained from one state and attribute table has exactly one outcome |
| LegacyRuns.RunsAgree | xaibenchmark/comparator.py:38-51 | two recorded runs from the same start pass through the same states and store the same reports |
| LegacyRuns.RunExcludesRaise | xaibenchmark/comparator.py:38-55 | a run over every row whose reports add up rules out any failing row from the same start |
| LegacyRuns.RecordedExcludesRaise | xaibenchmark/comparator.py:32-59 | an explainer whose tables were stored did not raise from where its recorded run started |
| LegacyComparator.RowIndexInjective | xaibenchmark/comparator.py:50-51 | per-row tables are keyed by the integer row position, distinct per row |
| LegacyComparator.ExplainRowsAsWritten | xaibenchmark/comparator.py:38-55 | as written the row loop succeeds iff there are no rows; after the first row is explained and reported, `infer_metrics(printing=False)` raises TypeError |
| LegacyComparator.ExplainRow | xaibenchmark/comparator.py:39-44 | one row: it raises exactly when `explain_instance`, the first `report()` or the `report()` after inference raises, with that error; otherwise the new state and explanation are what `explain_instance` returned, the attributes are closed under the older explainer's transfer graph, and the report is taken after inference |
| LegacyComparator.NextRow | xaibenchmark/comparator.py:38-52 | one pass of the row loop: the row either raises, and then the rows raise from where the run started, or its report is added and the run grows by the state the row leaves the object in |
| LegacyComparator.ExplainRows | xaibenchmark/comparator.py:38-55 | the row loop with `infer_metrics()` as the older explainer defines it raises exactly when some row, reached by a recorded run over the rows before it, raises in its step or in the `+=` of its report; otherwise the tables and averages are complete over all rows and produced by a recorded run over the rows in order, which starts from the object's state before the loop and ends in the state the object is left in |
| LegacyComparator.ExplainOne | xaibenchmark/comparator.py:32-59 | one explainer's turn stores its tables, produced by a recorded run that starts from the state the object had when its turn came and ends in the state it is left in; other entries stay; it raises only when one of its rows raises from that state, and then leaves the tables unchanged; no other registered object changes state |
| LegacyComparator.NextKeys | xaibenchmark/comparator.py:57-59 | after a finished turn the tables and the runs hold exactly the first j+1 names |
| LegacyComparator.NextTurn | xaibenchmark/comparator.py:57-59 | after a finished turn the tables hold exactly the first j+1 names, each still produced by its recorded run |
| LegacyComparator.ExplainNext | xaibenchmark/comparator.py:32-59 | turn `j`: on success the stored explainers are exactly the first j+1 names, each tied to its run; it raises only when a row of explainer `names[j]` raises from the state its turn started in, and then nothing changes; only this explainer's object changes, so every finished explainer registered under one name stays in the state its run ended in, and every later one still holds its state from before the loop |
| LegacyComparator.ExplainAll | xaibenchmark/comparator.py:32-59 | the loop succeeds exactly when all explainers finish; the stored explainers are the first `done` in insertion order, each produced by a recorded run over every row; when it raises, a row of explainer `names[done]` raised that error from the state its turn started in; an explainer registered under one name starts from its state before the call, and ends in the last state of its run when it finished, or keeps that first state when its turn never came |
| LegacyComparator.LegacyExplainerComparator.constructor | xaibenchmark/comparator.py:6-10 | no explainers and empty result tables |
| LegacyComparator.LegacyExplainerComparator.AddExplainer | xaibenchmark/comparator.py:12-18 | the explainer is stored under its name; a repeated name replaces the earlier explainer and keeps its position; results untouched |
| LegacyComparator.LegacyExplainerComparator.Store | xaibenchmark/comparator.py:57-59 | the three tables are stored, the registry is kept and no explainer object changes |
| LegacyComparator.LegacyExplainerComparator.ExplainInstancesAsWritten | xaibenchmark/comparator.py:20-59 | as written `explain_instances` succeeds iff there is no explainer or no row, and then every explainer has empty averages; otherwise the tables stay cleared |
| LegacyComparator.LegacyExplainerComparator.ExplainInstances | xaibenchmark/comparator.py:20-59 | with the stray argument dropped: tables cleared and refilled in insertion order, all of them exactly on success, every stored entry produced by a recorded run over all rows; an exception is one a row of explainer `names[done]` raised from the state its turn started in (its state before the call when registered under one name); such an explainer is left in the last state of its run when it finished, and untouched when its turn never came |
| Frames.Column | astrapia/utils.py:37 | `data[feature]`: the cells of the first column with that label, row by row; a missing label raises KeyError |
| Frames.ILocRow | astrapia/comparator.py:81 | `instances.iloc[[index]]`: a one-row frame with the same columns holding row `index` under its own label |
| Frames.RangeIndex | astrapia/explainers/anchors.py:59 | a frame built from an array is labelled 0, 1, ... |
| Text.NatToStringInjective | astrapia/comparator.py:90 | `str` of different row numbers differ |
| Text.DigitsValueOfNatToString | astrapia/comparator.py:90 | `str(index)` spells the number in decimal digits |
| Text.ParseIntOfNatToString | astrapia/samplers/splime.py:53 | `int(str(k)) == k` |
| Text.ParseIntOfIntToString | astrapia/explainers/anchors.py:54 | `int(str(i)) == i` for every integer, negative ones included |
| Text.RSplitOfJoin | astrapia/samplers/splime.py:52 | `rsplit('=', 1)` recovers the two halves of a join whose suffix has no separator |
| Text.SortedNames | astrapia/explainer.py:54 | `dir(obj)` order: the names of the set, each once, strictly sorted |
| Text.NatToString | astrapia/comparator.py:90 | `str()` of a natural number is a non-empty string of decimal digits with no sign |
| Text.IntToString | astrapia/explainers/anchors.py:54 | `str()` of an integer: a minus sign exactly for a negative number, followed by decimal digits |
| Text.Show | astrapia/explainers/anchors.py:46 | `str()` of a cell: text is itself, an integer its decimal digits |
| Text.ParseInt | astrapia/samplers/splime.py:53 | `int(s)` succeeds only on a non-empty string, and a string of digits reads as its decimal value |
| Text.RSplitOnce | astrapia/samplers/splime.py:49-52 | `rsplit(sep, 1)`: a string without the separator stays whole; otherwise two parts that rejoin to the string, the second free of the separator |
| Visualization.NormalizeBalance | astrapia/visualization.py:90-101 | a name containing `balance` gets a `*` and the value `1 - 2*abs(v - 0.5)`, which stays in [0, 1] and is 1 exactly at 0.5; other metrics pass through unchanged |
| Visualization.BalanceCloserIsHigher | astrapia/visualization.py:98-99 | of two balance values the one closer to 0.5 is rescaled higher |
| Visualization.CriticalMetrics | astrapia/visualization.py:19-26 | the detection loops collect exactly the relevant metrics that some explainer reports with a value outside [0, 1] |
| Visualization.CurrentSpec | astrapia/visualization.py:32-35 | `current_values` pairs each explainer reporting the metric with its value, misses none, and repeats no explainer |
| Visualization.CurrentCount | astrapia/visualization.py:38 | more than one value is collected iff at least two explainers report the metric |
| Visualization.Largest | astrapia/visualization.py:39 | `max` of the collected values is one of them and bounds all |
| Visualization.Smallest | astrapia/visualization.py:40 | `min` of the collected values is one of them and is below all |
| Visualization.Scaled | astrapia/visualization.py:41-46 | min-max scaling stays in [0, 1], gives 0 exactly at the minimum and 1 exactly at the maximum, and 1 when all values are equal |
| Visualization.Entry | astrapia/visualization.py:28-52 | what `normalize` writes for one explainer and metric: nothing for an unreported metric, a starred rescaled value for a non-relative metric with several values, nothing when it has one, `normalize_balance` otherwise; every value in [0, 1] |
| Visualization.EntryRescaled | astrapia/visualization.py:44-46 | a non-relative metric with several differing values is written as `(v - min) / (max - min)` |
| Visualization.Apply | astrapia/visualization.py:43 | writing one entry sets that key and keeps all others |
| Visualization.Normalized | astrapia/visualization.py:17 | the result has one (possibly empty) dictionary per explainer |
| Visualization.NormalizedInUnit | astrapia/visualization.py:6-54 | every value `normalize` returns lies in [0, 1], which is what lets the bar chart compare non-relative metrics with relative ones |
| Visualization.SingleValueDropped | astrapia/visualization.py:9 | a non-relative metric only one explainer reports is left out of the result |
| Visualization.CollectCurrent | astrapia/visualization.py:32-35 | the collection loop yields `current_values` |
| Visualization.Rescale | astrapia/visualization.py:38-46 | the min-max loop writes the entries of one non-relative metric |
| Visualization.Rebalance | astrapia/visualization.py:49-52 | the `normalize_balance` loop writes the entries of one relative metric |
| Visualization.NormalizeMetric | astrapia/visualization.py:28-52 | one iteration of the main loop equals the entries of that metric |
| Visualization.Normalize | astrapia/visualization.py:6-54 | `normalize` equals the normalized table, and so has all its proved properties |
| Visualization.FillInValue | astrapia/visualization.py:57-73 | a dash for a missing metric, the raw value when not numeric, the rounded value otherwise |
| Visualization.Shared | astrapia/visualization.py:210-219 | the filter keeps exactly the relevant metrics at least two explainers report |
| Visualization.SharedSorted | astrapia/visualization.py:207-219 | filtering keeps the sorted metric list sorted |
| Visualization.SelectMetrics | astrapia/visualization.py:157-219 | an unknown plot kind fails the assertion; otherwise the metric names, sorted, each reported by some explainer and by two when single-value metrics are hidden |
| Utils.IndicatorCell | astrapia/utils.py:37 | `(data[feature] == label).astype(int)` at one cell: 1 exactly when the cell equals the label, 0 otherwise |
| Utils.LabelPairs | astrapia/utils.py:36 | one (feature, label) pair per label, in list order |
| Utils.PairsPrefix | astrapia/utils.py:35-36 | the pairs of earlier features come first |
| Utils.PairsMember | astrapia/utils.py:35-37 | every label of every feature gets an indicator |
| Utils.PairsFeatures | astrapia/utils.py:35-37 | every indicator belongs to a feature of `meta.categorical_features` |
| Utils.KeptPositions | astrapia/utils.py:31 | the kept columns are non-categorical; the model fixes the set's order as table order (see Left out) |
| Utils.KeptMember | astrapia/utils.py:31 | every non-categorical column is kept |
| Utils.OnehotEncode | astrapia/utils.py:22-39 | the two loops and the concatenation build exactly the encoded table |
| Utils.IndicatorsNext | astrapia/utils.py:36-37 | each inner iteration appends that label's indicator name and column |
| Utils.MissingFeature | astrapia/utils.py:37 | a categorical feature with a label that is not a column makes `data[feature]` raise |
| Utils.Assembled | astrapia/utils.py:39 | `pd.concat(..., axis=1)`: kept columns then the indicator columns, same index and row count, each indicator column in place |
| Utils.EncodedOfColumns | astrapia/utils.py:33-39 | the names and columns collected pair by pair assemble into the encoded table |
| Utils.EncodedShape | astrapia/utils.py:22-39 | encoding succeeds iff every categorical feature that has a label is a column (KeyError otherwise), keeps the index and row count, and copies every kept column unchanged |
| Utils.EncodedKeepsNonCategorical | astrapia/utils.py:31 | a column survives exactly when it is not a categorical feature |
| Utils.EncodedIndicator | astrapia/utils.py:37 | the indicator of each pair is named `feature_label` and holds 1 exactly on rows whose feature equals the label, 0 on the others |
| Utils.OneHot | astrapia/utils.py:35-37 | with pairwise different labels a value matching one label gets exactly one 1 among its feature's indicators; a value matching none gets all 0 |
| Utils.ModelProperties | astrapia/utils.py:6-19 | `None` when the label and prediction arrays differ in length; otherwise the classification report, with the label list only when it is non-empty |
| LimeMetrics.SumBounds | astrapia/explainers/dlime.py:143 | a sum of n values in [lo, hi] lies between n*lo and n*hi |
| LimeMetrics.WeightsOf | astrapia/explainers/dlime.py:182 | `[weight for _, weight in weighted_instances]`: one weight per row, each in [0, 1] |
| LimeMetrics.WeightedInstances | astrapia/explainers/dlime.py:255-270 | `get_weighted_instances()`: empty before an explanation; afterwards each training row paired with the kernel weight of its distance to the explained instance |
| LimeMetrics.CoverageAbsolute | astrapia/explainers/dlime.py:145-150 | `coverage_absolute()`: AttributeError before any explanation, otherwise a value between 0 and the number of training rows |
| LimeMetrics.Coverage | astrapia/explainers/dlime.py:138-143 | `coverage()`: AttributeError before any explanation, ZeroDivisionError on an empty neighbourhood, otherwise a value in [0, 1] |
| LimeMetrics.CoverageTimesCount | astrapia/explainers/dlime.py:138-150 | coverage times the neighbourhood size is the absolute coverage |
| LimeMetrics.FlaggedSumBounds | astrapia/explainers/dlime.py:183 | `(flags * weights).sum()` lies between 0 and the total weight, equals it when every flag is set and 0 when none is |
| LimeMetrics.Ratio | astrapia/explainers/dlime.py:183 | a part over a positive whole lies in [0, 1], 1 for the whole and 0 for nothing |
| LimeMetrics.WeightedShare | astrapia/explainers/dlime.py:183 | numpy's weighted share is NaN exactly when the weights sum to 0, otherwise in [0, 1], 1 when all rows are flagged and 0 when none is |
| LimeMetrics.Share | astrapia/explainers/dlime.py:242 | `flags.sum() / len(flags)`: NaN on an empty array, otherwise in [0, 1], 1 when all and 0 when none are set |
| LimeMetrics.Clip | astrapia/explainers/dlime.py:113 | `np.clip(x, 0, 1)` lies in [0, 1], is `x` inside, 0 below and 1 above |
| LimeMetrics.Linear | astrapia/explainers/dlime.py:113-115 | the weighted sum over the explanation's terms raises IndexError exactly when a feature id is past the scaled row |
| LimeMetrics.SurrogatePrediction | astrapia/explainers/dlime.py:105-115 | `predict_instance_surrogate`: fails exactly when the linear part does, otherwise in [0, 1] and equal to intercept plus linear part when that is already in [0, 1] |
| LimeMetrics.Above | astrapia/explainers/dlime.py:181 | `np.array(preds) > 0.5`, element by element |
| LimeMetrics.Agree | astrapia/explainers/dlime.py:183 | `ml_preds == exp_preds`, element by element |
| LimeMetrics.SurrogateOf | astrapia/explainers/dlime.py:196 | the surrogate's prediction for every weighted row, in order |
| LimeMetrics.BalanceExplanation | astrapia/explainers/dlime.py:186-200 | `None` (NaN through the decorator) before any explanation; afterwards NaN or a value in [0, 1], 1 when the surrogate predicts class 1 everywhere |
| LimeMetrics.BalanceModel | astrapia/explainers/dlime.py:202-215 | `None` before any explanation; afterwards NaN or a value in [0, 1], 0 when the model predicts class 1 nowhere |
| LimeMetrics.BalanceData | astrapia/explainers/dlime.py:217-227 | `None` before any explanation; afterwards NaN or a value in [0, 1], 0 when no target equals the positive class name |
| LimeMetrics.Accuracy | astrapia/explainers/dlime.py:169-183 | AttributeError before any explanation; otherwise NaN or a weighted share in [0, 1], 1 when model and surrogate agree everywhere |
| LimeMetrics.AccuracyGlobal | astrapia/explainers/dlime.py:229-242 | AttributeError before any explanation; NaN exactly when there are no training rows; otherwise a share in [0, 1] |
| LimeMetrics.LegacyBalanceExplanation | xaibenchmark/explainers/lime.py:116-124 | the older, unguarded version: AttributeError before any explanation, NaN exactly for an empty neighbourhood, otherwise an unweighted share in [0, 1] |
| LimeMetrics.Neighbourhood.constructor | astrapia/explainers/dlime.py:17-48 | a new explainer has no explanation and no `weighted_instances` attribute |
| LimeMetrics.Neighbourhood.GetWeightedInstances | astrapia/explainers/dlime.py:255-270 | on the current state: no rows before an explanation, otherwise every training row with its kernel weight |
| LimeMetrics.Neighbourhood.ExplainInstance | astrapia/explainers/dlime.py:78-103 | after `explain_instance` the explanation exists, the instance is stored, the neighbourhood is weighted around it, coverage is defined iff there are training rows, and absolute coverage always is |
| Lime.CellValue | astrapia/explainers/dlime.py:71 | `to_numpy()` hands numbers to `np.argmax` by value; text has no numeric value |
| Lime.ArgMax | astrapia/explainers/dlime.py:70-71 | `np.argmax` over a row: a position holding the largest value, with every earlier value strictly smaller (the first maximum) |
| Lime.ArgMaxOneHot | astrapia/explainers/dlime.py:70-72 | the argmax of a one-hot row is the position of its one |
| Lime.ArgMaxAllZero | astrapia/explainers/dlime.py:70-72 | ties go to the first maximum: an all-zero block decodes to the first label |
| Lime.BlockNames | astrapia/explainers/dlime.py:71 | `[feature + '_' + str(l) for l in labels]`: one indicator name per label, in label order |
| Lime.BlockRow | astrapia/explainers/dlime.py:71 | the indicator values of one feature in one row, one per label |
| Lime.DecodedFeature | astrapia/explainers/dlime.py:70-72 | the decoded column of one feature has one cell per row |
| Lime.DecodedColumns | astrapia/explainers/dlime.py:69-72 | the decoded categorical columns are keyed by exactly the categorical features, each as long as the table |
| Lime.WithContinuous | astrapia/explainers/dlime.py:74-75 | `df[continuous] = data[continuous]`: the continuous feature columns are copied from the input, the categorical ones stay decoded |
| Lime.Selected | astrapia/explainers/dlime.py:76 | `df[meta.data.keys()]`: the requested columns in order under the input's index |
| Lime.DecodedColumnsFails | astrapia/explainers/dlime.py:69-72 | the first feature whose block cannot be read decides the exception |
| Lime.InverseTransformDataset | astrapia/explainers/dlime.py:60-76 | the decoding loop over the categorical features, the copy of the continuous ones and the final selection build exactly the decoded table |
| Lime.EncodableEncodes | astrapia/explainers/dlime.py:50-58 | a table holding every categorical feature can be one-hot encoded |
| Lime.BlockInEncoded | astrapia/explainers/dlime.py:71 | the indicator of each label sits in the encoded table after the kept columns, at its pair's position |
| Lime.EncodedBlockCell | astrapia/explainers/dlime.py:71 | in the encoded table a label's indicator is 1 exactly where the feature equals that label |
| Lime.DecodedRowOneHot | astrapia/explainers/dlime.py:70-72 | a row whose block is the one-hot encoding of `v` (labels pairwise different) decodes to `v` |
| Lime.DecodedFeatureOneHot | astrapia/explainers/dlime.py:70-72 | a table whose block for a feature one-hot encodes a column decodes to that column |
| Lime.DecodedFeatureOfEncoded | astrapia/explainers/dlime.py:50-72 | decoding one feature's block of the encoded table gives back that feature's column |
| Lime.DecodedColumnsOfEncoded | astrapia/explainers/dlime.py:50-72 | decoding the blocks of the encoded table gives back every categorical column |
| Lime.KeptColumnOfEncoded | astrapia/explainers/dlime.py:50-75 | a column that is no categorical feature is carried through the encoding unchanged |
| Lime.DecodedRestores | astrapia/explainers/dlime.py:60-76 | a table whose blocks decode to the columns of `x` and which carries the other columns of `x` decodes back to `x` |
| Lime.DecodeEncode | astrapia/explainers/dlime.py:50-76 | round trip: `inverse_transform_dataset(transform_dataset(x))` asking back all columns of `x` is `x`, for tables whose every categorical value is one of its labels whose labels are pairwise different and whose indicator names clash with no other column |
| LimePreprocessing.Levels | xaibenchmark/explainerPreprocessing.py:28 | the levels `get_dummies` makes dummies for are distinct, and they are exactly the printed values of the column |
| LimePreprocessing.GetDummies | xaibenchmark/explainerPreprocessing.py:28 | succeeds exactly when every categorical feature is a column and raises KeyError otherwise; every result column has one cell per row |
| LimePreprocessing.DummiesNamed | xaibenchmark/explainerPreprocessing.py:28 | every dummy column labelled `f_level` is the indicator of that level in column `f` |
| LimePreprocessing.DummiesHave | xaibenchmark/explainerPreprocessing.py:28 | every level of every feature gets its dummy column |
| LimePreprocessing.DummyTableNamed | xaibenchmark/explainerPreprocessing.py:28 | in the whole table (kept columns, then dummies), a label `f_level` that is not an input column holds only the indicator of that level |
| LimePreprocessing.Filled | xaibenchmark/explainerPreprocessing.py:29-32 | the table after the loop keeps every column it had, adds columns of zeros, and has a column for every indicator label |
| LimePreprocessing.FilledKeeps | xaibenchmark/explainerPreprocessing.py:29-32 | a label the table already had keeps its columns |
| LimePreprocessing.FilledZeros | xaibenchmark/explainerPreprocessing.py:29-32 | a label the table lacked gets only columns of zeros |
| LimePreprocessing.FillMissing | xaibenchmark/explainerPreprocessing.py:31-32 | the loop computes the filled table |
| LimePreprocessing.Lookup | xaibenchmark/explainerPreprocessing.py:38 | a label is found exactly when it is present, and then it yields its first column |
| LimePreprocessing.Selected | xaibenchmark/explainerPreprocessing.py:38 | selection succeeds exactly when every requested label is present, raises KeyError otherwise, and yields the requested columns in order |
| LimePreprocessing.Continuous | xaibenchmark/explainerPreprocessing.py:34 | the continuous keys are distinct, and they are exactly the keys that are not categorical features |
| LimePreprocessing.IndicatorNames | xaibenchmark/explainerPreprocessing.py:35-36 | one `feature_label` name per (feature, label) pair, in order |
| LimePreprocessing.LimePreprocessDataset | xaibenchmark/explainerPreprocessing.py:20-38 | the method computes the preprocessed table, errors included |
| LimePreprocessing.PreprocessDatasets | xaibenchmark/explainerPreprocessing.py:9-17 | succeeds exactly when every table does, and then gives each table's result in order; an error is one of the tables' errors |
| LimePreprocessing.PreprocessedAt | xaibenchmark/explainerPreprocessing.py:37-38 | cell `j` of row `i` is row `i` of the prepared column selected by label `j` |
| LimePreprocessing.PreprocessedShape | xaibenchmark/explainerPreprocessing.py:20-38 | every failure is a KeyError and a missing feature causes one; a result keeps the rows and index, and its columns are the continuous keys followed by the indicator labels |
| LimePreprocessing.PreprocessedDefined | xaibenchmark/explainerPreprocessing.py:28-38 | with every feature and every continuous key present, nothing raises |
| LimePreprocessing.SelectedColumn | xaibenchmark/explainerPreprocessing.py:38 | a label whose prepared columns all hold `col` selects `col` |
| LimePreprocessing.WantedIndicator | xaibenchmark/explainerPreprocessing.py:34-37 | indicator `k` sits after the continuous keys, at position `|cont_idx| + k` |
| LimePreprocessing.PreparedMissingZero | xaibenchmark/explainerPreprocessing.py:29-32 | an indicator label that `get_dummies` did not produce holds only zeros |
| LimePreprocessing.PreprocessedMissingZero | xaibenchmark/explainerPreprocessing.py:29-38 | an indicator label that `get_dummies` did not produce selects a column of zeros |
| LimePreprocessing.PreparedIndicator | xaibenchmark/explainerPreprocessing.py:28-32 | with `_`-free feature names, every prepared column under an indicator label is the indicator of its level, whether `get_dummies` or the loop made it |
| LimePreprocessing.PreprocessedIndicator | xaibenchmark/explainerPreprocessing.py:20-38 | indicator column `k` of the result is 1 exactly on the rows whose feature prints as the label, and 0 elsewhere |
| LimePreprocessing.PreprocessedContinuous | xaibenchmark/explainerPreprocessing.py:28-38 | with distinct input labels, a continuous key that no dummy shadows selects the input's own column |
| LimePreprocessing.NameSplit | xaibenchmark/explainerPreprocessing.py:29 | `a_x` splits back into `a` and `x` when `a` has no `_`, so indicator labels do not collide |
| LimePreprocessing.IndicatorOf | xaibenchmark/explainerPreprocessing.py:28 | a dummy column has one cell per row |
| LimePreprocessing.FeatureDummies | xaibenchmark/explainerPreprocessing.py:28 | one feature's dummy columns have one cell per row |
| LimePreprocessing.Dummies | xaibenchmark/explainerPreprocessing.py:28 | all the dummy columns have one cell per row |
| LimePreprocessing.KeptColumns | xaibenchmark/explainerPreprocessing.py:28 | the non-categorical columns have one cell per row |
| LimePreprocessing.Prepared | xaibenchmark/explainerPreprocessing.py:28-32 | the table after `get_dummies` and the added zero columns has one cell per row in every column |
| ArrayValues.Mapped | xaibenchmark/customAnchorsPreprocessing.py:18-23 | the mapped array has the input's length and maps each element independently |
| ArrayValues.MapArrayValues | xaibenchmark/explainerPreprocessing.py:175-180 | returns a fresh array, leaves the input alone, and holds the elements after every entry has been applied in insertion order |
| ArrayValues.FirstKey | xaibenchmark/customAnchorsPreprocessing.py:21 | finds the first entry whose key equals the element, and reports none when no key does |
| ArrayValues.MappedUnmatched | xaibenchmark/customAnchorsPreprocessing.py:22 | an element equal to no key is kept as it is |
| ArrayValues.MappedFirst | xaibenchmark/customAnchorsPreprocessing.py:21-22 | when no target equals a key, an element becomes the target of the first entry whose key it equals |
| ArrayValues.FirstKeyPrefix | xaibenchmark/customAnchorsPreprocessing.py:21 | the first matching key of a map is the one in its prefix, if the prefix has one; otherwise it is the last entry or none |
| ArrayValues.MappedChained | xaibenchmark/customAnchorsPreprocessing.py:21-22 | later entries act on elements already rewritten: when one target is a later key, the element goes on to the later target |
| ArrayValues.BinaryMap | xaibenchmark/customAnchorsPreprocessing.py:25 | fails with IndexError exactly when `values` has fewer than two items; otherwise it is the map `'0'` then `'1'` |
| ArrayValues.ReplaceBinaryValues | xaibenchmark/customAnchorsPreprocessing.py:24-25 | raises IndexError exactly when `values` has fewer than two items; otherwise returns a fresh array mapped through the binary map |
| ArrayValues.BinaryReplaced | xaibenchmark/customAnchorsPreprocessing.py:24-25 | `'1'` becomes `values[1]`; `'0'` becomes `values[0]`, or `values[1]` when `values[0]` is `'1'`; other elements are kept |
| AnchorsPreprocessing.Wrap | xaibenchmark/customAnchorsPreprocessing.py:136 | a position is valid exactly when `-n <= i < n`, IndexError otherwise; a negative one counts from the end |
| AnchorsPreprocessing.TargetIndex | xaibenchmark/customAnchorsPreprocessing.py:116-117 | a negative target becomes `width + target`, a non-negative one stays; an in-range target lands on the column Python's indexing reads |
| AnchorsPreprocessing.Assigned | xaibenchmark/customAnchorsPreprocessing.py:129 | a column assignment succeeds exactly when the column has one cell per row or a single cell (broadcast), ValueError otherwise; only column `p` changes |
| AnchorsPreprocessing.AssignColumn | xaibenchmark/customAnchorsPreprocessing.py:129 | assigning into the view below the header keeps the rows above it, and a refused column changes nothing |
| AnchorsPreprocessing.Applied | xaibenchmark/customAnchorsPreprocessing.py:128-129 | the rows when the loop stops keep the table's shape and equal the transformed rows when no transformation raises |
| AnchorsPreprocessing.AppliedStops | xaibenchmark/customAnchorsPreprocessing.py:128-129 | the transformations after the first that raises are never applied |
| AnchorsPreprocessing.TransformedErrs | xaibenchmark/customAnchorsPreprocessing.py:128-129 | once a transformation raises, the whole loop raises that error |
| AnchorsPreprocessing.TransformedNext | xaibenchmark/customAnchorsPreprocessing.py:128-129 | each step extends the run, or it raises and leaves the rows as they were before it |
| AnchorsPreprocessing.StepInPlace | xaibenchmark/customAnchorsPreprocessing.py:129 | one transformation written into the caller's array below the header, with its error |
| AnchorsPreprocessing.TransformInPlace | xaibenchmark/customAnchorsPreprocessing.py:128-129 | the loop reports the first error; the caller's array keeps its header rows and holds every transformation applied before that error |
| AnchorsPreprocessing.UsedColumns | xaibenchmark/customAnchorsPreprocessing.py:138 | `data[:, features_to_use]` succeeds exactly when every listed index is in range (IndexError otherwise), and reads each listed column the Python way |
| AnchorsPreprocessing.Columns | xaibenchmark/customAnchorsPreprocessing.py:138 | the selected table holds, at `[i][j]`, the cell of row `i` in column `ps[j]` |
| AnchorsPreprocessing.NamesAtSame | xaibenchmark/customAnchorsPreprocessing.py:139-140 | the kept names depend only on which positions are listed |
| AnchorsPreprocessing.NamesAtSorted | xaibenchmark/customAnchorsPreprocessing.py:137-140 | with an increasing, in-range list, the kept names are the names of the selected columns, column for column |
| AnchorsPreprocessing.IndexOf | xaibenchmark/customAnchorsPreprocessing.py:142 | `list.index` succeeds exactly when the value is listed (ValueError otherwise), and gives its first position |
| AnchorsPreprocessing.Repositioned | xaibenchmark/customAnchorsPreprocessing.py:142-143 | renumbering succeeds exactly when every categorical feature is listed (ValueError otherwise); each new number points back at the old feature |
| AnchorsPreprocessing.RepositionedUnique | xaibenchmark/customAnchorsPreprocessing.py:142-143 | with a list free of repeats, the renumbering is the only one that finds each feature at its new position |
| AnchorsPreprocessing.UseFeatures | xaibenchmark/customAnchorsPreprocessing.py:137-143 | the `features_to_use` branch: it fails with IndexError for an index out of range and ValueError for an unlisted categorical feature; the result has the listed columns, the kept names and the renumbered features |
| AnchorsPreprocessing.UseFeaturesKeepsCategorical | xaibenchmark/customAnchorsPreprocessing.py:137-143 | a listed categorical feature still names the same column after the restriction |
| AnchorsPreprocessing.Deleted | xaibenchmark/customAnchorsPreprocessing.py:145 | `np.delete` drops column `p` and shifts the later columns left by one |
| AnchorsPreprocessing.Shifted | xaibenchmark/customAnchorsPreprocessing.py:148-149 | features before the target keep their number, later ones drop by one |
| AnchorsPreprocessing.DropTarget | xaibenchmark/customAnchorsPreprocessing.py:144-149 | the branch without `features_to_use`: IndexError exactly when the target is out of range of the columns or the names; otherwise the target column and name are removed, and a non-empty feature list is shifted |
| AnchorsPreprocessing.DropTargetKeepsCategorical | xaibenchmark/customAnchorsPreprocessing.py:144-149 | every other categorical feature still names the same column after the deletion |
| AnchorsPreprocessing.UniqueCount | xaibenchmark/customAnchorsPreprocessing.py:154 | `len(np.unique(col))` raises TypeError exactly for a column mixing strings and numbers; otherwise it is between 1 and the column's length |
| AnchorsPreprocessing.Guessed | xaibenchmark/customAnchorsPreprocessing.py:151-155 | the guess succeeds exactly when no column is mixed (TypeError otherwise), and lists in increasing order the columns with fewer than 20 values |
| AnchorsPreprocessing.GuessCategorical | xaibenchmark/customAnchorsPreprocessing.py:151-155 | the loop computes the guess |
| AnchorsPreprocessing.GuessedColumns | xaibenchmark/customAnchorsPreprocessing.py:151-155 | the guess lists, in increasing order, exactly the columns with fewer than 20 different values, and every column when there are fewer than 20 rows |
| AnchorsPreprocessing.LabelEncoded | xaibenchmark/customAnchorsPreprocessing.py:156-161 | encoding keeps the table's shape, records names for exactly the listed features, leaves untouched columns alone, and raises for a feature out of range |
| AnchorsPreprocessing.EncodedTail | xaibenchmark/customAnchorsPreprocessing.py:157 | the features after the first read only columns the whole list reads, and an out-of-range feature among them is one of the list's |
| AnchorsPreprocessing.EncodeCategorical | xaibenchmark/customAnchorsPreprocessing.py:156-161 | the in-place encoding loop leaves the array holding the encoded table and returns the recorded names, or the same error |
| AnchorsPreprocessing.AsFloat | xaibenchmark/customAnchorsPreprocessing.py:162 | `astype(float)` succeeds exactly when every cell reads as a float (ValueError otherwise), and keeps the shape and each cell's value |
| AnchorsPreprocessing.Range | xaibenchmark/customAnchorsPreprocessing.py:171 | `range(width)` lists each of `0..width-1` at its own position |
| AnchorsPreprocessing.Ordinal | xaibenchmark/customAnchorsPreprocessing.py:169-170 | the ordinal features are the columns that are not categorical, in increasing order |
| AnchorsPreprocessing.Discretized | xaibenchmark/customAnchorsPreprocessing.py:163-172 | without `discretize` nothing changes; with it, the discretizer's table and error are taken over, every column becomes categorical, the non-categorical ones become ordinal, and the bin names override the names of those features |
| AnchorsPreprocessing.Described | xaibenchmark/customAnchorsPreprocessing.py:151-177 | the result keeps the names, labels and class target; the categorical features are the given ones, the guessed ones or every column after discretizing; the ordinal ones are the rest |
| AnchorsPreprocessing.Converted | xaibenchmark/customAnchorsPreprocessing.py:156-177 | the encoding, the conversion and the discretization keep the names and labels, and they fix the categorical and ordinal features |
| AnchorsPreprocessing.LoadedFrom | xaibenchmark/customAnchorsPreprocessing.py:130-177 | the labels and class names come from encoding the target column and the class target is the target's name; the names are the kept ones or all but the target; with discretization every column is categorical |
| AnchorsPreprocessing.Header | xaibenchmark/customAnchorsPreprocessing.py:119-125 | without names, the first row holds them (IndexError for an empty table); with names they are taken as given; the data starts at or below the header |
| AnchorsPreprocessing.LoadedCsv | xaibenchmark/customAnchorsPreprocessing.py:106-192 | with no names given, an empty table raises IndexError; a result means the header and every transformation succeeded |
| AnchorsPreprocessing.Written | xaibenchmark/customAnchorsPreprocessing.py:119-129 | the caller's array keeps its shape and its header rows |
| AnchorsPreprocessing.Process | xaibenchmark/customAnchorsPreprocessing.py:130-192 | the steps after the transformations compute the result from the transformed rows |
| AnchorsPreprocessing.Describe | xaibenchmark/customAnchorsPreprocessing.py:151-192 | the steps after the restriction compute the described result |
| AnchorsPreprocessing.Convert | xaibenchmark/customAnchorsPreprocessing.py:156-192 | the steps after the guess compute the converted result |
| AnchorsPreprocessing.EncodeCopy | xaibenchmark/customAnchorsPreprocessing.py:156-161 | encoding a fresh copy of the rows gives the encoded table |
| AnchorsPreprocessing.ReadHeader | xaibenchmark/customAnchorsPreprocessing.py:119-125 | reads the header from the caller's array |
| AnchorsPreprocessing.LoadCsvDataset | xaibenchmark/customAnchorsPreprocessing.py:106-192 | the loader returns the modelled result or its error, and leaves the caller's array holding the applied transformations below the header |
| AnchorsPreprocessing.Step | xaibenchmark/customAnchorsPreprocessing.py:129 | one transformation keeps the table's shape |
| AnchorsPreprocessing.Transformed | xaibenchmark/customAnchorsPreprocessing.py:128-129 | the transformations in order keep the table's shape |
| AnchorsPreprocessing.NamesAt | xaibenchmark/customAnchorsPreprocessing.py:139-140 | the kept names are at most as many as the names |
| AdultPreprocessing.Transformations | xaibenchmark/explainerPreprocessing.py:106-113 | six column transformations, each on a categorical feature |
| AdultPreprocessing.AdultOptions | xaibenchmark/customAnchorsPreprocessing.py:97-101 | the loader's arguments: the target reads the last column, the Adult names, used and categorical features are passed, `skip_first` is off |
| AdultPreprocessing.RowOf | xaibenchmark/customAnchorsPreprocessing.py:192 | the loader's last row, or its error |
| AdultPreprocessing.AnchorsPreprocessInstance | xaibenchmark/explainerPreprocessing.py:41-163 | returns the last row of the loader run with the target at `shape[1] - 1` and discretization on, or its error, and leaves the caller's array holding the applied transformations |
| AdultPreprocessing.LoadDataset | xaibenchmark/customAnchorsPreprocessing.py:27-103 | `load_dataset` without balancing returns the loader's last row with target `-1`, or its error, and leaves the caller's array holding the applied transformations |
| AdultPreprocessing.LoadedCsvTarget | xaibenchmark/explainerPreprocessing.py:115 | a target of `-1` and one of `shape[1] - 1` give the same result and leave the same array |
| AdultPreprocessing.LoadedFromTarget | xaibenchmark/customAnchorsPreprocessing.py:116-117 | only the column the target reads matters after the transformations |
| AdultPreprocessing.AdultCategoricalPositions | xaibenchmark/explainerPreprocessing.py:131-133 | the Adult categorical features become positions 1 to 9 and 11 of the twelve used ones |
| AdultPreprocessing.AdultFeatureNames | xaibenchmark/explainerPreprocessing.py:129-130 | the kept names are the twelve used features from Age to Country, fnlwgt, Education-Num and Income dropped |
| AdultPreprocessing.UsedSorted | xaibenchmark/explainerPreprocessing.py:53 | the used features are in increasing order and in range of the fifteen columns |
| AdultPreprocessing.AdultLoaded | xaibenchmark/explainerPreprocessing.py:121-159 | a successful run records the twelve used names, the class target Income for a fifteen-column table, every column categorical, and only Age (0) and Hours per week (10) ordinal |
| AdultPreprocessing.AdultLoadedFrom | xaibenchmark/explainerPreprocessing.py:127-152 | after the transformations, every column ends up categorical and only positions 0 and 10 ordinal |
| AdultPreprocessing.AdultOrdinal | xaibenchmark/explainerPreprocessing.py:149-150 | of the twelve used features only positions 0 and 10 are not categorical |
| Coding.Positions | astrapia/explainers/anchors.py:42-45 | the listed positions are increasing and in range, and they are exactly the features that are (or, for the ordinal ones, are not) categorical |
| Coding.PositionsPartition | astrapia/explainers/anchors.py:42-45 | every feature is either categorical or ordinal, and never both |
| Coding.Strs | astrapia/explainers/anchors.py:46 | one `str()` per label, in order |
| Coding.LastPos | astrapia/explainers/anchors.py:53 | the dictionary built from the enumerated labels maps a label to its last position, and lacks a label that is not listed |
| Coding.Code | astrapia/explainers/anchors.py:53-54 | `feature_map[str(x)]` raises KeyError exactly when no label prints as the cell; otherwise it gives a position whose label prints as the cell |
| Coding.CodeOfLabel | astrapia/explainers/anchors.py:53-54 | with labels that print differently, a label codes to its own position |
| Coding.RecodedColumn | astrapia/explainers/anchors.py:54 | recoding one column succeeds exactly when the column is in range, the table has rows and every cell is known; then only that column changes, to the codes |
| Coding.CodedRowsFails | astrapia/explainers/anchors.py:52-54 | the first column that fails decides the exception of the whole loop |
| Coding.CodedRowsNext | astrapia/explainers/anchors.py:52-54 | each turn of the loop recodes the next column of the table so far |
| Coding.EncodeCategories | astrapia/samplers/splime.py:28-31 | the coding loop computes the coded table, or the first failure |
| Coding.RecodedStep | astrapia/explainers/anchors.py:52-54 | coding one more column extends the set of coded columns |
| Coding.CodedRowsCells | astrapia/explainers/anchors.py:52-54 | coding succeeds exactly when the table has rows (or nothing is to be coded) and every categorical cell is known; it then rewrites exactly the cells of those columns |
| Coding.PyIndex | astrapia/explainers/anchors.py:62 | a list index succeeds exactly when `-n <= i < n`, IndexError otherwise; a negative one counts from the end |
| Coding.Truncate | astrapia/samplers/splime.py:40 | `int(x)` truncates toward zero |
| Coding.IndexOf | astrapia/explainers/anchors.py:62 | Anchors uses an integer cell as it is and refuses any other with TypeError; SP-LIME truncates a float |
| Coding.DecodeCell | astrapia/explainers/anchors.py:62 | decoding an integer cell is the list index of that position |
| Coding.DecodeCode | astrapia/explainers/anchors.py:53-62 | decoding the code of a label gives the label back |
| Coding.DecodeCells | astrapia/explainers/anchors.py:61-62 | `map` succeeds exactly when every cell decodes, and then decodes cell by cell |
| Coding.DecodedColumn | astrapia/explainers/anchors.py:59-62 | a column name past the end raises IndexError, an empty table is kept, a feature without labels raises KeyError, otherwise only that column is decoded |
| Coding.DecodedRowsFails | astrapia/explainers/anchors.py:60-62 | the first column that fails decides the exception of the whole loop |
| Coding.DecodeCategories | astrapia/samplers/splime.py:39-40 | the decoding loop computes the decoded table, or the first failure |
| Coding.DecodedStep | astrapia/explainers/anchors.py:60-62 | decoding the first still-coded column restores its cells |
| Coding.DecodedPrefix | astrapia/explainers/anchors.py:60-62 | decoding a prefix of the coded columns leaves only the rest coded |
| Coding.NoneCoded | astrapia/explainers/anchors.py:37-63 | with no column left coded, the table is the original one |
| Coding.CodingRoundTrip | astrapia/explainers/anchors.py:37-63 | with distinct names, labels that print differently and every categorical cell one of its feature's labels, coding and then decoding restores the table, under either way of reading a position |
| Coding.CodedRows | astrapia/explainers/anchors.py:52-54 | the coded table keeps the input's shape |
| Coding.DecodedRows | astrapia/explainers/anchors.py:60-62 | the decoded table keeps the input's shape |
| SpLime.CustomPredict | astrapia/samplers/splime.py:37-41 | rows that are not as wide as the feature list raise ValueError; a decoding failure propagates; without a model the call raises TypeError; otherwise the model sees the decoded frame under a fresh index |
| SpLime.CustomPredictOfCoded | astrapia/samplers/splime.py:25-41 | on the coded table, `custom_predict` calls the model on the original table, so the predictor undoes the sampler's coding |
| SpLime.ToFloat | astrapia/samplers/splime.py:50 | `float(value)` converts numbers, parses text and raises ValueError exactly for text that does not parse |
| SpLime.ProcessFeature | astrapia/samplers/splime.py:47-55 | a plain continuous name gives `float(value)`; a categorical name without `=` raises ValueError; a successful categorical result is one of that feature's labels |
| SpLime.ProcessIndicator | astrapia/samplers/splime.py:47-55 | the name `f=k` of a categorical feature gives the label at position `k`, whatever `f` itself contains |
| SpLime.ProcessCodedLabel | astrapia/samplers/splime.py:30-55 | the name LIME gives a coded categorical cell is processed back into the label that was coded |
| SpLime.ZipLength | astrapia/samplers/splime.py:60 | `zip` stops at the shorter of the two lists |
| SpLime.ProcessedFeatures | astrapia/samplers/splime.py:60 | the comprehension succeeds exactly when every zipped feature does, and then gives them in order; its error is one of theirs |
| SpLime.SampleRow | astrapia/samplers/splime.py:60 | a row succeeds exactly when the zipped features are as many as the columns and all process; a count mismatch raises ValueError |
| SpLime.SampleRows | astrapia/samplers/splime.py:59-61 | the rows succeed exactly when every explanation's row does, and then come one per explanation, in pick order |
| SpLime.SampleRowsAppended | astrapia/samplers/splime.py:59-61 | the last explanation's row completes the rows of the others |
| SpLime.SampleRowsNext | astrapia/samplers/splime.py:59-61 | each turn of the loop appends the next row, or raises that row's error |
| SpLime.SampleRowsFails | astrapia/samplers/splime.py:59-61 | the first explanation that fails decides the exception |
| SpLime.Sampled | astrapia/samplers/splime.py:25-63 | a result has exactly the data's columns and a fresh `RangeIndex` |
| SpLime.SampledRows | astrapia/samplers/splime.py:25-63 | a result has one row per picked explanation, in pick order, each cell the processed feature of that explanation at that column |
| SpLime.AssembleSamples | astrapia/samplers/splime.py:58-63 | the assembly loop returns the rows under the data's columns and a fresh index, or the first row's error |
| SpLime.PickSamples | xaibenchmark/samplers/splime.py:10-46 | the coding loop, the pick and the assembly loop compute the sampled frame, or its error |
| SpLime.Sample | astrapia/samplers/splime.py:10-63 | a missing model raises ValueError before anything else happens; otherwise the result is the sampled frame |
| DLimeExplanation.Explanation.constructor | astrapia/explainers/DLime/explanation.py:48-70 | a supported mode starts with empty maps; classification keeps the given class names, regression sets the class names `negative`/`positive`, the bounds 0.0 and 1.0 and dummy label 1 |
| DLimeExplanation.Explanation.AvailableLabels | astrapia/explainers/DLime/explanation.py:76-83 | raises NotImplementedError exactly outside classification; otherwise gives the top labels when there are any, else exactly the labels of `local_exp`, each once |
| DLimeExplanation.Explanation.LabelToUse | astrapia/explainers/DLime/explanation.py:86 | classification reads the requested label, regression always the dummy label |
| DLimeExplanation.Explanation.AsList | astrapia/explainers/DLime/explanation.py:85-95 | raises KeyError exactly when no weights were recorded for the label to use; otherwise gives them through the domain mapper |
| DLimeExplanation.NewExplanation | astrapia/explainers/DLime/explanation.py:48-74 | fails exactly for a mode other than classification and regression, with NameError because the exception it names is not defined; a new explanation is valid, has no weights yet, and its mode decides the labels it reports |
| DLimeExplanation.ListedWeights | astrapia/explainers/DLime/explanation.py:42-98 | with the base domain mapper, a classification explanation lists exactly the weights `as_map` holds for the label, and every label it reports without top labels can be listed |
| Anchors.Labels | astrapia/explainers/anchors.py:40 | raises IndexError exactly when there are no class names; otherwise one 0/1 label per row, 1 exactly where the target equals the last class name |
| Anchors.CategoricalNames | astrapia/explainers/anchors.py:46-47 | keyed by exactly the positions of categorical features, each mapped to its labels' `str()` |
| Anchors.Transformed | astrapia/explainers/anchors.py:37-56 | a transformed dataset's table is rectangular and keeps the row count |
| Anchors.TransformDataset | astrapia/explainers/anchors.py:37-56 | the method computes the transformed dataset, or its error |
| Anchors.TransformedSpec | astrapia/explainers/anchors.py:37-56 | succeeds exactly when there is a class name, the table has a row or nothing is categorical, and every categorical cell prints as one of its labels; otherwise IndexError, ValueError or KeyError in that order; on success the positions partition the features in increasing order and exactly the categorical columns are coded |
| Anchors.TransformedPositions | astrapia/explainers/anchors.py:42-54 | the recorded positions partition the features, each list increasing, and the table has exactly its categorical columns coded |
| Anchors.CodedRowsError | astrapia/explainers/anchors.py:52-54 | with every position inside the table, coding fails with ValueError on an empty table and KeyError otherwise |
| Anchors.Inverse | astrapia/explainers/anchors.py:58-63 | a width other than the feature count raises ValueError; a result is labelled by the feature names under a fresh `RangeIndex` |
| Anchors.InverseTransformDataset | astrapia/explainers/anchors.py:58-63 | the method computes the decoded frame, or its error |
| Anchors.InverseOfTransformed | astrapia/explainers/anchors.py:22-63 | with `data.keys()` equal to the distinct feature names, labels that print differently and every categorical cell one of its labels, decoding the transformed table gives the original table back |
| Anchors.Predictor | astrapia/explainers/anchors.py:32-34 | fails exactly when decoding does; otherwise one flag per model answer, true exactly when the class-1 probability exceeds 0.5 |
| Anchors.LegacyPredictor | xaibenchmark/explainers/anchors.py:30-32 | fails exactly when decoding does; otherwise the model's answers on the decoded frame, unthresholded |
| Anchors.Matching | astrapia/explainers/anchors.py:194-195 | the fitting rows among the first `n`, increasing, and exactly those |
| Anchors.FitAnchor | astrapia/explainers/anchors.py:186-195 | raises IndexError exactly when an anchor feature lies outside the table or the instance; otherwise the increasing positions of exactly the rows that agree with the instance on every anchor feature |
| Anchors.IncreasingBound | astrapia/explainers/anchors.py:194-195 | increasing positions below `n` are at most `n` many |
| Anchors.EmptyAnchorFitsAll | astrapia/explainers/anchors.py:194-195 | the empty anchor fits every row |
| Anchors.IncreasingFrom | astrapia/explainers/anchors.py:194-195 | an increasing list of exactly the positions below `n` is `0 .. n-1` |
| Anchors.ExplanationFigure | astrapia/explainers/anchors.py:93-120 | `coverage` and `accuracy_global` are NaN exactly before any explanation, and afterwards the explanation's own figure |
| Anchors.CoverageAbsolute | astrapia/explainers/anchors.py:104-109 | AttributeError before any explanation; otherwise the number of rows that fit the anchor, between 0 and the row count |
| Anchors.IncreasingCard | astrapia/explainers/anchors.py:109 | an increasing list holds as many positions as the set of them |
| Anchors.Pick | astrapia/explainers/anchors.py:145 | fancy indexing raises IndexError exactly for a position past the end, and otherwise picks the values in order |
| Anchors.BalanceExplanation | astrapia/explainers/anchors.py:122-132 | AttributeError exactly before any explanation; otherwise 1 when the explained prediction is true and 0 when it is false |
| Anchors.LegacyBalanceExplanation | xaibenchmark/explainers/anchors.py:103-112 | AttributeError before any explanation, IndexError without class names; otherwise 0 exactly when the prediction equals the first class name, else 1 |
| Anchors.FitShare | astrapia/explainers/anchors.py:145 | the mean of the fitting rows' flags: IndexError for a position past the end, NaN exactly for no fitting row, otherwise in [0, 1]; 1 when every fitting row is flagged and 0 when none is |
| Anchors.BalanceModel | astrapia/explainers/anchors.py:134-145 | None (NaN after the metric wrapper) before any explanation; otherwise the share of fitting rows the model predicts positive |
| Anchors.LegacyBalanceModel | xaibenchmark/explainers/anchors.py:114-124 | None (NaN after the metric wrapper) before any explanation; fewer than two class names make it fail; otherwise the share of fitting rows whose model label equals the second class name |
| Anchors.PickMatches | xaibenchmark/explainers/anchors.py:124 | comparing then picking is picking then comparing |
| Anchors.Matches | xaibenchmark/explainers/anchors.py:124 | one flag per value, true exactly where the value equals the wanted one |
| Anchors.BalanceData | astrapia/explainers/anchors.py:147-155 | None (NaN after the metric wrapper) before any explanation; otherwise the share of fitting rows whose label is 1 |
| Anchors.Positive | astrapia/explainers/anchors.py:155 | one flag per label, true exactly where the label is 1 |
| Anchors.NumberOf | astrapia/explainers/anchors.py:166 | a cell is a number exactly when it is not text |
| Anchors.ColumnMax | astrapia/explainers/anchors.py:166 | TypeError exactly when the column mixes strings and numbers; a column of strings has no numeric maximum; otherwise the largest number of the column, which occurs in it |
| Anchors.ColumnMaxima | astrapia/explainers/anchors.py:166 | an empty table raises ValueError; the maxima fail exactly when some column's does, and otherwise give every column's maximum |
| Anchors.ProductBounds | astrapia/explainers/anchors.py:168 | a product of factors in (0, 1] lies in (0, 1] |
| Anchors.AreaFactors | astrapia/explainers/anchors.py:166-168 | one factor per anchor feature, each in (0, 1] when its maximum is non-negative |
| Anchors.AreaRelative | astrapia/explainers/anchors.py:157-169 | NaN before any explanation; ValueError for an empty table; a result is a number in (0, 1] when the anchor's maxima are non-negative, and 1 for the empty anchor |
| Anchors.AreaOf | astrapia/explainers/anchors.py:166-168 | succeeds exactly when every anchor feature has a numeric maximum other than -1; the area lies in (0, 1] for non-negative maxima and is 1 for the empty anchor |
| Anchors.RowsAt | astrapia/explainers/anchors.py:181 | the rows at the given positions, in order |
| Anchors.CountTrue | astrapia/explainers/anchors.py:184 | the count of true flags is at most the number of flags |
| Anchors.CountTrueAll | astrapia/explainers/anchors.py:184 | when every flag is true, the count is the number of flags |
| Anchors.AgreementRatio | astrapia/explainers/anchors.py:184 | the ratio is non-negative, at most 1 when the model answers once per row, and 1 when every answer agrees |
| Anchors.Accuracy | astrapia/explainers/anchors.py:171-184 | None before any explanation or when no row fits; otherwise the share of fitting rows the model predicts as the explanation does |
| Anchors.AgreeWith | astrapia/explainers/anchors.py:184 | one flag per prediction, true exactly where it equals the explained label |
| Anchors.LegacyAccuracy | xaibenchmark/explainers/anchors.py:148-160 | None before any explanation or when no row fits; otherwise the share of fitting rows whose model label equals the explained label |
| Anchors.ExplainedInstance | astrapia/explainers/anchors.py:197-204 | AttributeError exactly before any explanation; otherwise the coded instance |
| Anchors.LegacyNeighborhoodInstances | xaibenchmark/explainers/anchors.py:162-171 | `[]` exactly before any explanation; afterwards AttributeError, because `instance_set` is never set |
| Anchors.AnchorsExplainer.constructor | astrapia/explainers/anchors.py:13-30 | the explainer keeps its dataset description and transformed data, with nothing explained yet |
| Anchors.AnchorsExplainer.ExplainInstance | astrapia/explainers/anchors.py:65-79 | a failed transformation propagates its error and an empty instance frame raises IndexError; otherwise the anchor search runs on the first coded row, and on success the explanation and that row are recorded; on failure the state is unchanged |
| Anchors.NewAnchorsExplainer | astrapia/explainers/anchors.py:13-34 | construction fails exactly when the dataset cannot be transformed, with that error; otherwise the new explainer holds the transformed dataset and nothing explained |

## Left out

- **Explanation algorithms are parameters.** The explanation libraries are foreign code, so each is a parameter returning an abstract explanation. This covers LIME's and DLIME's tabular explainers, `AnchorTabularExplainer`, `SubmodularPick`, sklearn clustering, nearest neighbours, regression, `LabelEncoder` and `QuartileDiscretizer`.
- **The user's model is a parameter.** It is a function from a decoded table to predictions.
- **Randomness is not modelled.**
  - The random samplers, astrapia/samplers/random.py and xaibenchmark/samplers/random.py, only draw rows at random.
  - The train/dev split.
  - The class-balancing resampling of `load_csv_dataset` (the `balance` option).
- **Floating point is not modelled.**
  - Kernel weights: the kernel `sqrt(exp(-d**2 / w**2))` composed with `np.linalg.norm` is one parameter whose values lie in [0, 1].
  - `area_absolute` and `distance_furthest` of astrapia/explainers/dlime.py, and `absolute_area`/`furthest_distance` of xaibenchmark/explainers/lime.py.
  - The xaibenchmark Anchors `distance`.
  - `area_norm`'s fractional power: `**` on reals is a parameter.
  - `round_table_value` of astrapia/visualization.py.
- **Capital-gains binning is a parameter.** The median/`np.digitize` binning in the Adult loader is passed in (`capGains`).
- **Hard-coded column 30.** The DLIME `explain_instance` hard-codes column 30 of the clustered data (astrapia/explainers/dlime.py:90). The clustering is foreign, so `LimeMetrics.Neighbourhood.ExplainInstance` takes the explanation as a parameter and does not model that selection.
- **Not modelled: I/O, printing and plotting.**
  - CSV loading: `filter_fn`, `fill_na`, the delimiter, and decoding bytes to strings.
  - The dataset loading and setup scripts.
  - `store_metrics` and `load_metrics_from_json`.
  - The `print` in `infer_metrics`.
  - tqdm progress bars.
  - Every plotly figure in astrapia/visualization.py, and `as_pyplot` figures of the DLIME explanation.
  - astrapia/exploration.py.
  - `id_generator`.
- **The clock is a parameter.** The comparator's timestamp (`datetime.now()`) is passed in.
- **Reflection is an explicit attribute map.**
  - `dir`/`getattr`/`setattr`/`inspect.signature` become an explicit attribute map with parameter lists.
  - Python's recursion limit becomes a call budget.
  - astrapia/decorators.py is not part of this model. The `prop` tag is modelled only as the report code uses it.
- **numpy representation is simplified.**
  - numpy's fixed-width string truncation and `object` dtype conversions are not modelled: a table is a sequence of rows of cells.
  - NaN cells in `np.unique` are not distinguished from other values.
- **`pd.get_dummies` is modelled only as far as the preprocessing uses it.** That means the indicator names `f_label` and their 0/1 cells. Its dtype and column-ordering options are not modelled.
- **Unused constant.** The `label_map` constant of the Adult preprocessing is not used by the code and is not modelled.
- **Not modelled: data holders.**
  - The `Dataset` Bunch classes are plain records.
  - xaibenchmark/utils.py is a sklearn wrapper.
  - xaibenchmark/ExplainerComparator.py is a module-level script.
  - xaibenchmark/explainers/dlime.py only calls sklearn and DLIME.
  - The base sampler interfaces are empty.
- Text.ParseInt: states `int(s)` only for unsigned digit strings and that it fails on the empty string; surrounding blanks and `_` digit separators are not modelled.
- Text.Show: `str()` of a non-integral float is a single placeholder string rather than Python's shortest round-trip rendering.
- SpLime.ToFloat: Python's float syntax is a parser parameter.
- AnchorsPreprocessing.AsFloat: Python's float syntax is a parser parameter.
- AnchorsPreprocessing.Discretized: the discretizer is assumed to return a table as wide as its input.
- **The continuous set has a fixed order.** The continuous columns `list(feature_names - categorical_features.keys())` are a Python set, whose order the language does not fix. The model takes them in the order of the feature names.
- Utils.KeptPositions: `data[set(data.columns) - set(meta.categorical_features)]` (astrapia/utils.py:31) indexes with a Python set, whose iteration order the language does not fix; the model keeps the columns in table order. pandas 2 and later reject a set indexer with TypeError, which is not modelled.
- Utils.OnehotEncode: the kept non-categorical columns come in table order, for the reason given for Utils.KeptPositions; the set order and the set-indexer TypeError of pandas 2 are not modelled.
- LimePreprocessing.Continuous: `cont_idx = list(set(keys) - set(categorical_features.keys()))` (xaibenchmark/explainerPreprocessing.py:34) comes from a Python set, whose order the language does not fix; the model takes the continuous keys in the order of `keys`.
- ExplainerBase.CallAll: `report` builds a Python set of `(name, value)` pairs (astrapia/explainer.py:98), which raises TypeError when a value is unhashable (a list, dict or array); the model collects the values in a map and does not raise.
- ExplainerBase.Report: the unhashable-value TypeError of the set of pairs is not modelled, as for ExplainerBase.CallAll.
- LimeMetrics.BalanceData: the positive label `data.target_names[1]` (astrapia/explainers/dlime.py:226) is a parameter, so the IndexError of a dataset with fewer than two target names is not modelled.
- Lime.ArgMax: works on numbers; the decoding raises TypeError for any text cell in an indicator block, whereas `np.argmax` over a block of text only compares the strings and returns a position.
- Anchors.AreaOf: a column maximum of -1 makes `1 / (max + 1)` raise ZeroDivisionError in the model; numpy on a float array gives `inf` instead.
- Text.Show: an integral float of magnitude 1e16 or more prints in exponent form in Python (`1e+16`); the model prints it as digits followed by `.0`.
- TransferFunctions.FurthestDistanceValue: the neighbourhood must be a list; a numpy array neighbourhood, which Python iterates row by row, raises TypeError in the model.
- LimePreprocessing.Lookup: takes the first column with the label, whereas pandas returns every column carrying a duplicated label.
- Comparator.ExplainAll: start and end states are stated only for an explainer object registered under one name. An object registered under several names starts each later turn from where its previous turn left it, and the contract does not spell that out.
- Comparator.ExplainAll: the state the raising explainer is left in is not stated. Its rows before the one that raised did change it, and the contract says only that the error came from a row of a run that started where its turn began.
- Comparator.ExplainNext: the end state of the explainer that raised, and the states of objects registered under several names, are not stated, as for Comparator.ExplainAll.
- Comparator.ExplainOne: on an exception the explainer's own end state is not stated; only that the other objects keep theirs.
- Comparator.ExplainRows: on an exception the explainer's end state is not stated.
- Comparator.ExplainerComparator.ExplainInstances: the end states left unstated are those of Comparator.ExplainAll.
- Comparator.ExplainerComparator.ExplainRepresentative: the end states left unstated are those of Comparator.ExplainAll.
- LegacyComparator.ExplainAll: start and end states are stated only for an explainer object registered under one name, and the raising explainer's end state is not stated, as for Comparator.ExplainAll.
- LegacyComparator.ExplainNext: the end state of the explainer that raised, and the states of objects registered under several names, are not stated.
- LegacyComparator.ExplainOne: on an exception the explainer's own end state is not stated; only that the other objects keep theirs.
- LegacyComparator.ExplainRows: on an exception the explainer's end state is not stated.
- LegacyComparator.LegacyExplainerComparator.ExplainInstances: the end states left unstated are those of LegacyComparator.ExplainAll.
- Visualization.NormalizedInUnit: metric values are NaN-free reals in the Visualization module. In the source a NaN metric is never inside [0, 1] (astrapia/visualization.py:24), so its metric counts as non-relative, and `max`/`min` and the scaling `(v - min) / (max - min)` then produce NaN or order-dependent results. That NaN propagation is not modelled, so "every value lies in [0, 1]" holds only for NaN-free reports. The same applies to Visualization.Entry, Visualization.Normalize and Visualization.CriticalMetrics.
- **xaibenchmark LIME's `explain_instance` is not modelled.** It passes two arguments to the one-argument `predict` lambda (xaibenchmark/explainers/lime.py:31 and 58), so LIME's first call of the classifier raises TypeError. LIME itself is a parameter of the model, so that call is not modelled.

## Findings

| source | as written | input that shows it | evidently intended | confidence | as-written member | corrected member |
|---|---|---|---|---|---|---|
| xaibenchmark/comparator.py:41 | `explainer.infer_metrics(printing=False)` against `infer_metrics(self)` (xaibenchmark/explainer.py:56), which takes no such argument: TypeError | any registered explainer and a table with at least one row | `explainer.infer_metrics()` | not executed | LegacyComparator.LegacyExplainerComparator.ExplainInstancesAsWritten | LegacyComparator.LegacyExplainerComparator.ExplainInstances |
