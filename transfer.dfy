/** The transfer registry and the metric-inference fixpoint of
    astrapia/transfer.py (xaibenchmark/transfer.py is the same program).
    A pass walks the registry in order and attaches a derived metric for
    every rule whose prerequisites are all available; the available set is
    fixed for the whole pass. The first pass counts metrics and utilities as
    available, every later pass metrics only, and passes repeat until the
    metric names stop changing. */
module Transfer {
  import opened Values
  import opened Tagging
  import opened Objects
  import opened Sets

  /** Whether a rule fires against the available names of a pass. With
      `skipPresent` the produced name must not be available yet (the
      registry engine); without it (the inline engine of the older
      explainer) only the prerequisites are checked. */
  predicate Fires(r: Rule, avail: set<string>, skipPresent: bool)
  {
    (forall p :: p in r.prereqs ==> p in avail) && (!skipPresent || r.produced !in avail)
  }

  /** Every name some rule can produce. */
  function Produced(rules: seq<Rule>): (names: set<string>)
    ensures forall j :: 0 <= j < |rules| ==> rules[j].produced in names
  {
    set j | 0 <= j < |rules| :: rules[j].produced
  }

  /** The attributes after the first `k` rules of one pass. */
  function PassUpTo(a: Attrs, rules: seq<Rule>, avail: set<string>, skipPresent: bool, k: nat): Attrs
    requires k <= |rules|
  {
    if k == 0 then a
    else
      var before := PassUpTo(a, rules, avail, skipPresent, k - 1);
      if Fires(rules[k - 1], avail, skipPresent) then before[rules[k - 1].produced := DerivedAttr(rules[k - 1])]
      else before
  }

  /** One pass over the whole registry. */
  function Pass(a: Attrs, rules: seq<Rule>, avail: set<string>, skipPresent: bool): Attrs
  {
    PassUpTo(a, rules, avail, skipPresent, |rules|)
  }

  /** What one pass can and cannot change. */
  lemma {:induction false} PassFrame(a: Attrs, rules: seq<Rule>, avail: set<string>, skipPresent: bool, k: nat)
    requires k <= |rules|
    ensures var p := PassUpTo(a, rules, avail, skipPresent, k);
      a.Keys <= p.Keys <= a.Keys + Produced(rules)
    ensures var p := PassUpTo(a, rules, avail, skipPresent, k);
      forall x :: x in p && (x !in a || p[x] != a[x]) ==>
        exists j :: 0 <= j < k && Fires(rules[j], avail, skipPresent) && rules[j].produced == x && p[x] == DerivedAttr(rules[j])
    ensures var p := PassUpTo(a, rules, avail, skipPresent, k);
      forall j :: 0 <= j < k && Fires(rules[j], avail, skipPresent) ==> rules[j].produced in p && p[rules[j].produced].tag == Metric
  {
    if k > 0 {
      PassFrame(a, rules, avail, skipPresent, k - 1);
      var before := PassUpTo(a, rules, avail, skipPresent, k - 1);
      var p := PassUpTo(a, rules, avail, skipPresent, k);
      var r := rules[k - 1];
      if Fires(r, avail, skipPresent) {
        forall x | x in p && (x !in a || p[x] != a[x])
          ensures exists j :: 0 <= j < k && Fires(rules[j], avail, skipPresent) && rules[j].produced == x && p[x] == DerivedAttr(rules[j])
        {
          if x == r.produced {
            assert Fires(rules[k - 1], avail, skipPresent) && rules[k - 1].produced == x && p[x] == DerivedAttr(rules[k - 1]);
          } else {
            assert before[x] == p[x];
          }
        }
      }
    }
  }

  /** Within one pass the last firing rule for a name decides its binding. */
  lemma {:induction false} PassLastFiringWins(a: Attrs, rules: seq<Rule>, avail: set<string>, skipPresent: bool, k: nat, j: nat)
    requires j < k <= |rules| && Fires(rules[j], avail, skipPresent)
    requires forall l :: j < l < k && rules[l].produced == rules[j].produced ==> !Fires(rules[l], avail, skipPresent)
    ensures var p := PassUpTo(a, rules, avail, skipPresent, k);
      rules[j].produced in p && p[rules[j].produced] == DerivedAttr(rules[j])
  {
    if j < k - 1 {
      PassLastFiringWins(a, rules, avail, skipPresent, k - 1, j);
    }
  }

  /** With the produced-name check, a pass never rebinds an available name. */
  lemma PassKeepsAvailable(a: Attrs, rules: seq<Rule>, avail: set<string>)
    ensures var p := Pass(a, rules, avail, true);
      forall x :: x in avail && x in a ==> x in p && p[x] == a[x]
  {
    PassFrame(a, rules, avail, true, |rules|);
  }

  /** A pass keeps every metric a metric and adds the produced names of the
      rules that fired. */
  lemma PassGrowsMetrics(a: Attrs, rules: seq<Rule>, avail: set<string>, skipPresent: bool)
    ensures var p := Pass(a, rules, avail, skipPresent);
      MetricNames(a) <= MetricNames(p) <= p.Keys
      && a.Keys + Produced(rules) == p.Keys + Produced(rules)
  {
    var p := Pass(a, rules, avail, skipPresent);
    PassFrame(a, rules, avail, skipPresent, |rules|);
    forall x | x in MetricNames(a)
      ensures x in MetricNames(p)
    {
      if p[x] != a[x] {
        var j :| 0 <= j < |rules| && Fires(rules[j], avail, skipPresent) && rules[j].produced == x && p[x] == DerivedAttr(rules[j]);
      }
    }
  }

  /** Removing more names from a finite universe leaves fewer names. */
  lemma FewerMissing(u: set<string>, m: set<string>, m': set<string>)
    requires m < m' <= u
    ensures |u - m'| < |u - m|
  {
    var x :| x in m' && x !in m;
    var big, small := u - m, u - m';
    assert big == small + (big - small);
    assert x in big - small;
  }

  /** Later passes: the available set is the current metric names. The
      measure is the number of producible or present names that are not yet
      metrics. */
  function Fix(a: Attrs, rules: seq<Rule>, skipPresent: bool): Attrs
    decreases |(a.Keys + Produced(rules)) - MetricNames(a)|
  {
    var next := Pass(a, rules, MetricNames(a), skipPresent);
    if MetricNames(next) == MetricNames(a) then next
    else
      PassGrowsMetrics(a, rules, MetricNames(a), skipPresent);
      FewerMissing(a.Keys + Produced(rules), MetricNames(a), MetricNames(next));
      Fix(next, rules, skipPresent)
  }

  /** The whole inference: one pass over metrics and utilities, then passes
      over metrics until the metric names are stable. The first comparison is
      against the metric-and-utility set, so a start with utilities always
      takes a second pass. */
  function Closure(a: Attrs, rules: seq<Rule>, skipPresent: bool): Attrs
  {
    var first := Pass(a, rules, MuNames(a), skipPresent);
    if MetricNames(first) == MuNames(a) then first else Fix(first, rules, skipPresent)
  }

  /** A pass after which the metric names equal its available set leaves
      no rule with metric prerequisites whose produced name is not a metric. */
  lemma StablePassIsClosed(a: Attrs, rules: seq<Rule>, avail: set<string>, skipPresent: bool)
    requires MetricNames(Pass(a, rules, avail, skipPresent)) == avail
    ensures var c := Pass(a, rules, avail, skipPresent);
      forall j :: 0 <= j < |rules| && (forall p :: p in rules[j].prereqs ==> p in MetricNames(c)) ==> rules[j].produced in MetricNames(c)
  {
    var c := Pass(a, rules, avail, skipPresent);
    PassFrame(a, rules, avail, skipPresent, |rules|);
    forall j | 0 <= j < |rules| && (forall p :: p in rules[j].prereqs ==> p in MetricNames(c))
      ensures rules[j].produced in MetricNames(c)
    {
      if Fires(rules[j], avail, skipPresent) {
        assert rules[j].produced in c && c[rules[j].produced].tag == Metric;
      }
    }
  }

  /** On exit every rule whose prerequisites are all metrics has its produced
      name bound to a metric. */
  lemma {:induction false} FixIsClosed(a: Attrs, rules: seq<Rule>, skipPresent: bool)
    ensures var c := Fix(a, rules, skipPresent);
      forall j :: 0 <= j < |rules| && (forall p :: p in rules[j].prereqs ==> p in MetricNames(c)) ==> rules[j].produced in MetricNames(c)
    decreases |(a.Keys + Produced(rules)) - MetricNames(a)|
  {
    var next := Pass(a, rules, MetricNames(a), skipPresent);
    if MetricNames(next) != MetricNames(a) {
      PassGrowsMetrics(a, rules, MetricNames(a), skipPresent);
      FewerMissing(a.Keys + Produced(rules), MetricNames(a), MetricNames(next));
      FixIsClosed(next, rules, skipPresent);
    } else {
      StablePassIsClosed(a, rules, MetricNames(a), skipPresent);
    }
  }

  lemma ClosureIsClosed(a: Attrs, rules: seq<Rule>, skipPresent: bool)
    ensures var c := Closure(a, rules, skipPresent);
      forall j :: 0 <= j < |rules| && (forall p :: p in rules[j].prereqs ==> p in MetricNames(c)) ==> rules[j].produced in MetricNames(c)
  {
    var first := Pass(a, rules, MuNames(a), skipPresent);
    if MetricNames(first) != MuNames(a) {
      FixIsClosed(first, rules, skipPresent);
    } else {
      StablePassIsClosed(a, rules, MuNames(a), skipPresent);
    }
  }

  /** Facts every run keeps: names are only added, metrics stay metrics,
      and every attribute that differs from the start is the derived metric
      of a rule producing that name. */
  ghost predicate Grows(a: Attrs, c: Attrs, rules: seq<Rule>)
  {
    a.Keys <= c.Keys <= a.Keys + Produced(rules)
    && MetricNames(a) <= MetricNames(c)
    && forall x :: x in c && (x !in a || c[x] != a[x]) ==>
         exists j :: 0 <= j < |rules| && rules[j].produced == x && c[x] == DerivedAttr(rules[j])
  }

  lemma PassGrows(a: Attrs, rules: seq<Rule>, avail: set<string>, skipPresent: bool)
    ensures Grows(a, Pass(a, rules, avail, skipPresent), rules)
  {
    PassFrame(a, rules, avail, skipPresent, |rules|);
    PassGrowsMetrics(a, rules, avail, skipPresent);
  }

  lemma GrowsTransitive(a: Attrs, b: Attrs, c: Attrs, rules: seq<Rule>)
    requires Grows(a, b, rules) && Grows(b, c, rules)
    ensures Grows(a, c, rules)
  {
    forall x | x in c && (x !in a || c[x] != a[x])
      ensures exists j :: 0 <= j < |rules| && rules[j].produced == x && c[x] == DerivedAttr(rules[j])
    {
      if x in b && c[x] == b[x] {
        assert x !in a || b[x] != a[x];
      }
    }
  }

  lemma {:induction false} FixGrows(a: Attrs, rules: seq<Rule>, skipPresent: bool)
    ensures Grows(a, Fix(a, rules, skipPresent), rules)
    decreases |(a.Keys + Produced(rules)) - MetricNames(a)|
  {
    var next := Pass(a, rules, MetricNames(a), skipPresent);
    PassGrows(a, rules, MetricNames(a), skipPresent);
    if MetricNames(next) != MetricNames(a) {
      PassGrowsMetrics(a, rules, MetricNames(a), skipPresent);
      FewerMissing(a.Keys + Produced(rules), MetricNames(a), MetricNames(next));
      FixGrows(next, rules, skipPresent);
      GrowsTransitive(a, next, Fix(next, rules, skipPresent), rules);
    }
  }

  /** Inference only adds names the registry can produce, never demotes a
      metric, and every binding it changes is a rule's derived metric. */
  lemma ClosureGrows(a: Attrs, rules: seq<Rule>, skipPresent: bool)
    ensures Grows(a, Closure(a, rules, skipPresent), rules)
  {
    var first := Pass(a, rules, MuNames(a), skipPresent);
    PassGrows(a, rules, MuNames(a), skipPresent);
    if MetricNames(first) != MuNames(a) {
      FixGrows(first, rules, skipPresent);
      GrowsTransitive(a, first, Fix(first, rules, skipPresent), rules);
    }
  }

  /** With the produced-name check, metrics present before inference keep
      their exact binding. */
  lemma {:induction false} FixKeepsMetrics(a: Attrs, rules: seq<Rule>)
    ensures var c := Fix(a, rules, true);
      forall x :: x in MetricNames(a) ==> x in c && c[x] == a[x]
    decreases |(a.Keys + Produced(rules)) - MetricNames(a)|
  {
    var next := Pass(a, rules, MetricNames(a), true);
    PassKeepsAvailable(a, rules, MetricNames(a));
    if MetricNames(next) != MetricNames(a) {
      PassGrowsMetrics(a, rules, MetricNames(a), true);
      FewerMissing(a.Keys + Produced(rules), MetricNames(a), MetricNames(next));
      FixKeepsMetrics(next, rules);
    }
  }

  lemma ClosureKeepsMetrics(a: Attrs, rules: seq<Rule>)
    ensures var c := Closure(a, rules, true);
      forall x :: x in MetricNames(a) ==> x in c && c[x] == a[x]
  {
    var first := Pass(a, rules, MuNames(a), true);
    PassKeepsAvailable(a, rules, MuNames(a));
    if MetricNames(first) != MuNames(a) {
      FixKeepsMetrics(first, rules);
    }
  }

  /** Utilities count only in the first pass: every rule whose prerequisites
      are metrics or utilities at the start and whose name is new yields a
      metric. */
  lemma ClosureUsesUtilitiesOnce(a: Attrs, rules: seq<Rule>, skipPresent: bool, j: nat)
    requires j < |rules| && (forall p :: p in rules[j].prereqs ==> p in MuNames(a))
    requires rules[j].produced !in MuNames(a)
    ensures rules[j].produced in MetricNames(Closure(a, rules, skipPresent))
  {
    var first := Pass(a, rules, MuNames(a), skipPresent);
    PassFrame(a, rules, MuNames(a), skipPresent, |rules|);
    if MetricNames(first) != MuNames(a) {
      FixGrows(first, rules, skipPresent);
    }
  }

  /** The attributes the last pass of `Fix` starts from. */
  ghost function FixLastStart(a: Attrs, rules: seq<Rule>, skipPresent: bool): Attrs
    decreases |(a.Keys + Produced(rules)) - MetricNames(a)|
  {
    var next := Pass(a, rules, MetricNames(a), skipPresent);
    if MetricNames(next) == MetricNames(a) then a
    else
      PassGrowsMetrics(a, rules, MetricNames(a), skipPresent);
      FewerMissing(a.Keys + Produced(rules), MetricNames(a), MetricNames(next));
      FixLastStart(next, rules, skipPresent)
  }

  /** The last pass of a run is taken against the final metric names. */
  lemma {:induction false} FixEndsWithStablePass(a: Attrs, rules: seq<Rule>, skipPresent: bool)
    ensures var c := Fix(a, rules, skipPresent);
      c == Pass(FixLastStart(a, rules, skipPresent), rules, MetricNames(c), skipPresent)
    decreases |(a.Keys + Produced(rules)) - MetricNames(a)|
  {
    var next := Pass(a, rules, MetricNames(a), skipPresent);
    if MetricNames(next) != MetricNames(a) {
      PassGrowsMetrics(a, rules, MetricNames(a), skipPresent);
      FewerMissing(a.Keys + Produced(rules), MetricNames(a), MetricNames(next));
      FixEndsWithStablePass(next, rules, skipPresent);
    }
  }

  /** The attributes the last pass of `Closure` starts from. */
  ghost function ClosureLastStart(a: Attrs, rules: seq<Rule>, skipPresent: bool): Attrs
  {
    var first := Pass(a, rules, MuNames(a), skipPresent);
    if MetricNames(first) == MuNames(a) then a else FixLastStart(first, rules, skipPresent)
  }

  lemma ClosureEndsWithStablePass(a: Attrs, rules: seq<Rule>, skipPresent: bool)
    ensures var c := Closure(a, rules, skipPresent);
      c == Pass(ClosureLastStart(a, rules, skipPresent), rules, MetricNames(c), skipPresent)
  {
    var first := Pass(a, rules, MuNames(a), skipPresent);
    if MetricNames(first) != MuNames(a) {
      FixEndsWithStablePass(first, rules, skipPresent);
    }
  }

  /** Without the produced-name check every enabled rule fires again in the
      last pass, so when several enabled rules produce one name the binding
      left behind is the last such rule's. */
  lemma InlineClosureLastRuleWins(a: Attrs, rules: seq<Rule>, j: nat)
    requires j < |rules|
    requires var c := Closure(a, rules, false);
      forall p :: p in rules[j].prereqs ==> p in MetricNames(c)
    requires var c := Closure(a, rules, false);
      forall l :: j < l < |rules| && rules[l].produced == rules[j].produced ==> exists p :: p in rules[l].prereqs && p !in MetricNames(c)
    ensures var c := Closure(a, rules, false);
      rules[j].produced in c && c[rules[j].produced] == DerivedAttr(rules[j])
  {
    var c := Closure(a, rules, false);
    ClosureEndsWithStablePass(a, rules, false);
    PassLastFiringWins(ClosureLastStart(a, rules, false), rules, MetricNames(c), false, |rules|, j);
  }

  /** Inference is not idempotent: a rule needing a utility and a metric
      that only the first pass derives is enabled by a second run. Rule A
      derives `inverse_coverage` from the metric `coverage`; rule B needs
      `inverse_coverage` and the utility `distance`. */
  lemma ClosureIsNotIdempotent(body: seq<Callable> -> Outcome)
    ensures var ruleA := Rule(["coverage"], "inverse_coverage", PyFunction("inverse_coverage", ["coverage"], body));
      var ruleB := Rule(["inverse_coverage", "distance"], "spread", PyFunction("spread", ["inverse_coverage", "distance"], body));
      var a := map["coverage" := Attr(Metric, Own), "distance" := Attr(Utility, Own)];
      var once := Closure(a, [ruleA, ruleB], true);
      "spread" !in once && "spread" in MetricNames(Closure(once, [ruleA, ruleB], true))
  {
    var ruleA := Rule(["coverage"], "inverse_coverage", PyFunction("inverse_coverage", ["coverage"], body));
    var ruleB := Rule(["inverse_coverage", "distance"], "spread", PyFunction("spread", ["inverse_coverage", "distance"], body));
    var rules := [ruleA, ruleB];
    var a := map["coverage" := Attr(Metric, Own), "distance" := Attr(Utility, Own)];
    assert MuNames(a) == {"coverage", "distance"};
    assert Fires(ruleA, MuNames(a), true) && !Fires(ruleB, MuNames(a), true);
    var first := a["inverse_coverage" := DerivedAttr(ruleA)];
    assert PassUpTo(a, rules, MuNames(a), true, 1) == first;
    assert Pass(a, rules, MuNames(a), true) == first;
    assert MetricNames(first) == {"coverage", "inverse_coverage"};
    assert ruleB.prereqs[1] == "distance" && "distance" !in MetricNames(first);
    assert !Fires(ruleA, MetricNames(first), true) && !Fires(ruleB, MetricNames(first), true);
    assert PassUpTo(first, rules, MetricNames(first), true, 1) == first;
    assert Pass(first, rules, MetricNames(first), true) == first;
    assert Closure(a, rules, true) == first;
    assert MuNames(first) == {"coverage", "distance", "inverse_coverage"};
    assert "spread" !in MuNames(first);
    ClosureUsesUtilitiesOnce(first, rules, true, 1);
  }

  /** The registry: the module-level `_transferlist`, append-only. */
  class Registry {
    var rules: seq<Rule>

    constructor ()
      ensures rules == []
    {
      rules := [];
    }

    /** `add_transfer(f)`: one rule at the end, its prerequisites the
        function's parameter names in declaration order, its produced name
        the function's name. */
    method AddTransfer(f: PyFunction)
      modifies this
      ensures rules == old(rules) + [Rule(f.params, f.name, f)]
    {
      rules := rules + [Rule(f.params, f.name, f)];
    }

    /** `use_transfer(obj)`. */
    method UseTransfer(obj: Explainer)
      modifies obj`attrs
      ensures obj.attrs == Closure(old(obj.attrs), rules, true)
    {
      Infer(obj, rules, true);
    }
  }

  /** One pass: the rules in registry order, each checked against the
      names available when the pass started. */
  method RunPass(obj: Explainer, rules: seq<Rule>, avail: set<string>, skipPresent: bool)
    modifies obj`attrs
    ensures obj.attrs == Pass(old(obj.attrs), rules, avail, skipPresent)
  {
    for i := 0 to |rules|
      invariant obj.attrs == PassUpTo(old(obj.attrs), rules, avail, skipPresent, i)
    {
      var r := rules[i];
      if Fires(r, avail, skipPresent) {
        obj.attrs := obj.attrs[r.produced := DerivedAttr(r)];
      }
    }
  }

  /** The inference loop shared by `use_transfer` and the older inline
      `infer_metrics`: `previous` is None until the first pass ends (the
      source starts it as an empty dict, which equals no set). */
  method Infer(obj: Explainer, rules: seq<Rule>, skipPresent: bool)
    modifies obj`attrs
    ensures obj.attrs == Closure(old(obj.attrs), rules, skipPresent)
  {
    ghost var a0 := obj.attrs;
    ghost var u := a0.Keys + Produced(rules);
    var previous: Option<set<string>> := None;
    var current := MuNames(obj.attrs);
    while previous != Some(current)
      invariant obj.attrs.Keys + Produced(rules) == u
      invariant previous.None? ==> obj.attrs == a0 && current == MuNames(a0)
      invariant previous.Some? ==> current == MetricNames(obj.attrs)
      invariant previous.Some? ==> Closure(a0, rules, skipPresent) == if previous.value == current then obj.attrs else Fix(obj.attrs, rules, skipPresent)
      decreases if previous.None? then |u| + 2 else if previous.value == current then 0 else |u - current| + 1
    {
      ghost var start := obj.attrs;
      RunPass(obj, rules, current, skipPresent);
      PassGrowsMetrics(start, rules, current, skipPresent);
      var next := MetricNames(obj.attrs);
      SubsetNoLarger(u - next, u);
      if previous.Some? && next != current {
        FewerMissing(u, current, next);
      }
      previous := Some(current);
      current := next;
    }
  }
}
