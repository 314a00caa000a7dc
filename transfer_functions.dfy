/** The default transfer rules of astrapia/transfer_functions.py
    (xaibenchmark/transfer_functions.py is the same program), registered
    once when the package is imported: `area_norm` and then
    `furthest_distance`. */
module TransferFunctions {
  import opened Values
  import opened Tagging
  import opened Objects
  import opened Transfer

  /** `area() ** (1 / len(get_explained_instance()))`: `area` is called
      first, then the explained instance is fetched and measured. */
  function AreaNormValue(fs: seq<Callable>, pow: (real, real) -> real): (r: Outcome)
    ensures |fs| != 2 ==> r == Err(TypeError)
    ensures |fs| == 2 && fs[0]([]).Err? ==> r == fs[0]([])
    ensures |fs| == 2 && fs[0]([]).Ok? && fs[1]([]).Err? ==> r == fs[1]([])
    ensures |fs| == 2 && fs[0]([]).Ok? && fs[1]([]).Ok? ==>
      match PyLen(fs[1]([]).value)
      case Err(e) => r == Err(e)
      case Ok(n) => r == if n == 0 then Err(ZeroDivisionError) else PyPow(fs[0]([]).value, 1.0 / n as real, pow)
  {
    if |fs| != 2 then Err(TypeError)
    else
      match fs[0]([])
      case Err(e) => Err(e)
      case Ok(area) =>
        match fs[1]([])
        case Err(e) => Err(e)
        case Ok(instance) =>
          match PyLen(instance)
          case Err(e) => Err(e)
          case Ok(n) => if n == 0 then Err(ZeroDivisionError) else PyPow(area, 1.0 / n as real, pow)
  }

  /** `[distance(get_explained_instance(), i) for i in xs]`, evaluated left
      to right; the first exception ends the comprehension. */
  function Distances(distance: Callable, explained: Callable, xs: seq<PyVal>): (r: Result<seq<PyVal>, Error>)
    ensures r.Ok? ==> |r.value| == |xs|
    ensures r.Ok? && |xs| > 0 ==> explained([]).Ok?
    ensures r.Ok? ==> forall i :: 0 <= i < |xs| ==> distance([explained([]).value, xs[i]]) == Ok(r.value[i])
    ensures xs != [] && explained([]).Err? ==> r == Err(explained([]).error)
  {
    if xs == [] then Ok([])
    else
      match explained([])
      case Err(e) => Err(e)
      case Ok(x) =>
        match distance([x, xs[0]])
        case Err(e) => Err(e)
        case Ok(d) =>
          match Distances(distance, explained, xs[1..])
          case Err(e) => Err(e)
          case Ok(ds) => Ok([d] + ds)
  }

  /** Once the explained instance is fetched, the comprehension fails iff
      some neighbour's distance raises, and then with the exception of the
      first such neighbour. */
  lemma {:induction false} DistancesFirstError(distance: Callable, explained: Callable, xs: seq<PyVal>)
    requires xs != [] && explained([]).Ok?
    ensures Distances(distance, explained, xs).Err? <==>
      exists k :: 0 <= k < |xs| && distance([explained([]).value, xs[k]]).Err?
    ensures Distances(distance, explained, xs).Err? ==>
      exists k :: 0 <= k < |xs| && distance([explained([]).value, xs[k]]) == Err(Distances(distance, explained, xs).error)
        && forall i :: 0 <= i < k ==> distance([explained([]).value, xs[i]]).Ok?
  {
    var x := explained([]).value;
    var r := Distances(distance, explained, xs);
    if distance([x, xs[0]]).Err? {
      assert r == Err(distance([x, xs[0]]).error);
    } else if |xs| == 1 {
      assert xs[1..] == [];
      forall k | 0 <= k < |xs|
        ensures distance([x, xs[k]]).Ok?
      {
        assert k == 0;
      }
    } else {
      var rest := xs[1..];
      DistancesFirstError(distance, explained, rest);
      assert forall k :: 0 <= k < |rest| ==> rest[k] == xs[k + 1];
      if r.Err? {
        assert Distances(distance, explained, rest).Err?;
        var k :| 0 <= k < |rest| && distance([x, rest[k]]) == Err(Distances(distance, explained, rest).error)
          && forall i :: 0 <= i < k ==> distance([x, rest[i]]).Ok?;
        assert distance([x, xs[k + 1]]) == Err(r.error);
        forall i | 0 <= i < k + 1
          ensures distance([x, xs[i]]).Ok?
        {
          if i > 0 {
            assert xs[i] == rest[i - 1];
          }
        }
      } else {
        assert Distances(distance, explained, rest).Ok?;
        forall k | 0 <= k < |xs|
          ensures distance([x, xs[k]]).Ok?
        {
          if k > 0 {
            assert xs[k] == rest[k - 1];
          }
        }
      }
    }
  }

  /** Python's `max` over `cur` followed by `items`: an item replaces the
      running maximum only when it compares greater. */
  function MaxFrom(cur: PyVal, items: seq<PyVal>): Outcome
    decreases |items|
  {
    if items == [] then Ok(cur)
    else
      match PyGreater(items[0], cur)
      case Err(e) => Err(e)
      case Ok(greater) => MaxFrom(if greater then items[0] else cur, items[1..])
  }

  /** The maximum is the start or one of the items, numerically at least the
      start and every numeric item; NaN never wins; a non-number raises. */
  lemma {:induction false} MaxFromBounds(cur: PyVal, items: seq<PyVal>)
    requires NumericOf(cur).Some?
    decreases |items|
    ensures var r := MaxFrom(cur, items);
      r.Ok? <==> forall i :: 0 <= i < |items| ==> items[i].NaN? || NumericOf(items[i]).Some?
    ensures var r := MaxFrom(cur, items);
      r.Ok? ==> (r.value == cur || r.value in items) && NumericOf(r.value).Some? && NumericOf(r.value).value >= NumericOf(cur).value
    ensures var r := MaxFrom(cur, items);
      r.Ok? ==> forall i :: 0 <= i < |items| && NumericOf(items[i]).Some? ==> NumericOf(r.value).value >= NumericOf(items[i]).value
  {
    if items != [] {
      var g := PyGreater(items[0], cur);
      if g.Ok? {
        var next := if g.value then items[0] else cur;
        MaxFromBounds(next, items[1..]);
        var r := MaxFrom(cur, items);
        assert r == MaxFrom(next, items[1..]);
        if r.Ok? {
          assert r.value == next || r.value in items[1..];
        }
        assert forall i :: 1 <= i < |items| ==> items[i] == items[1..][i - 1];
      }
    }
  }

  /** `max(0, 0, *[distance(get_explained_instance(), i) for i in
      get_neighborhood_instance()])`: the neighbourhood is fetched first. */
  function FurthestDistanceValue(fs: seq<Callable>): Outcome
  {
    if |fs| != 3 then Err(TypeError)
    else
      match fs[2]([])
      case Err(e) => Err(e)
      case Ok(neighbours) =>
        if !neighbours.Items? then Err(TypeError)
        else
          match Distances(fs[0], fs[1], neighbours.items)
          case Err(e) => Err(e)
          case Ok(ds) => MaxFrom(Num(0.0), [Num(0.0)] + ds)
  }

  /** The furthest distance is never below 0 and is at least the distance
      from the explained instance to every neighbourhood instance. */
  lemma FurthestDistanceBounds(fs: seq<Callable>)
    requires |fs| == 3
    ensures var r := FurthestDistanceValue(fs);
      r.Ok? ==> NumericOf(r.value).Some? && NumericOf(r.value).value >= 0.0
    ensures var r := FurthestDistanceValue(fs);
      r.Ok? ==> fs[2]([]).Ok? && fs[2]([]).value.Items?
    ensures var r := FurthestDistanceValue(fs);
      r.Ok? ==> forall i, d ::
        (0 <= i < |fs[2]([]).value.items| && fs[1]([]).Ok? && fs[0]([fs[1]([]).value, fs[2]([]).value.items[i]]) == Ok(Num(d)))
        ==> NumericOf(r.value).value >= d
  {
    var r := FurthestDistanceValue(fs);
    if r.Ok? {
      var xs := fs[2]([]).value.items;
      var ds := Distances(fs[0], fs[1], xs).value;
      MaxFromBounds(Num(0.0), [Num(0.0)] + ds);
      assert forall i :: 0 <= i < |ds| ==> ([Num(0.0)] + ds)[i + 1] == ds[i];
    }
  }

  /** An empty neighbourhood gives exactly 0. */
  lemma FurthestDistanceOfEmptyNeighbourhood(fs: seq<Callable>)
    requires |fs| == 3 && fs[2]([]) == Ok(Items([]))
    ensures FurthestDistanceValue(fs) == Ok(Num(0.0))
  {
    assert Distances(fs[0], fs[1], []) == Ok([]);
    assert MaxFrom(Num(0.0), [Num(0.0)]) == MaxFrom(Num(0.0), []);
  }

  function AreaNorm(pow: (real, real) -> real): (f: PyFunction)
    ensures f.name == "area_norm" && f.params == ["area", "get_explained_instance"]
  {
    PyFunction("area_norm", ["area", "get_explained_instance"], fs => AreaNormValue(fs, pow))
  }

  function FurthestDistance(): (f: PyFunction)
    ensures f.name == "furthest_distance" && f.params == ["distance", "get_explained_instance", "get_neighborhood_instance"]
  {
    PyFunction("furthest_distance", ["distance", "get_explained_instance", "get_neighborhood_instance"], FurthestDistanceValue)
  }

  /** `generate_default_transfer_functions(add_transfer)`. */
  method GenerateDefaultTransferFunctions(reg: Registry, pow: (real, real) -> real)
    modifies reg
    ensures reg.rules == old(reg.rules) + [Rule(AreaNorm(pow).params, "area_norm", AreaNorm(pow)),
                                           Rule(FurthestDistance().params, "furthest_distance", FurthestDistance())]
  {
    reg.AddTransfer(AreaNorm(pow));
    reg.AddTransfer(FurthestDistance());
  }

  /** Importing the package: an empty registry, then the default rules. */
  method ImportPackage(pow: (real, real) -> real) returns (reg: Registry)
    ensures fresh(reg)
    ensures |reg.rules| == 2
    ensures reg.rules[0].produced == "area_norm" && reg.rules[0].prereqs == ["area", "get_explained_instance"]
    ensures reg.rules[1].produced == "furthest_distance"
    ensures reg.rules[1].prereqs == ["distance", "get_explained_instance", "get_neighborhood_instance"]
    ensures reg.rules == [Rule(AreaNorm(pow).params, "area_norm", AreaNorm(pow)),
                          Rule(FurthestDistance().params, "furthest_distance", FurthestDistance())]
  {
    reg := new Registry();
    GenerateDefaultTransferFunctions(reg, pow);
  }

  /** A `furthest_distance` attached by inference, called on the object, is
      a number of at least 0 whenever it does not raise. */
  lemma AttachedFurthestDistanceNonNegative(attrs: Attrs, own: string -> Callable, depth: nat)
    requires "furthest_distance" in attrs
    requires attrs["furthest_distance"] == DerivedAttr(Rule(FurthestDistance().params, "furthest_distance", FurthestDistance()))
    ensures var r := Call(attrs, own, "furthest_distance", [], depth);
      r.Ok? ==> NumericOf(r.value).Some? && NumericOf(r.value).value >= 0.0
  {
    var r := Call(attrs, own, "furthest_distance", [], depth);
    if r.Ok? {
      var rule := attrs["furthest_distance"].binding.rule;
      DerivedCall(attrs, own, "furthest_distance", depth);
      var fs: seq<Callable> :| |fs| == |rule.prereqs|
        && (forall i, args :: 0 <= i < |fs| ==> fs[i](args) == Call(attrs, own, rule.prereqs[i], args, depth - 1))
        && r == NanForNone(rule.fn.body(fs));
      FurthestDistanceBounds(fs);
    }
  }
}
