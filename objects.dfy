/** The Python object model the inference engine relies on, made explicit:
    an explainer's attributes are a map from name to tag and binding (what
    `dir`, `getattr(.., 'tag')` and `setattr` observe), and calling an
    attribute is evaluated by `Call`. */
module Objects {
  import opened Values
  import opened Tagging
  import opened Frames

  /** A Python function: its `__name__`, its parameter names in declaration
      order (`inspect.signature`), and what it returns given one callable
      per parameter. */
  datatype PyFunction = PyFunction(name: string, params: seq<string>, body: seq<Callable> -> Outcome)

  /** One transfer rule: the prerequisite attribute names in the order they
      are passed, the produced attribute name, and the function computing it. */
  datatype Rule = Rule(prereqs: seq<string>, produced: string, fn: PyFunction)

  /** Where an attribute's behaviour comes from: a method the explainer class
      defines itself, or a metric attached by a transfer rule. */
  datatype Binding = Own | Derived(rule: Rule)

  datatype Attr = Attr(tag: Tag, binding: Binding)

  type Attrs = map<string, Attr>

  /** The attribute a fired rule attaches: `metric(partial(compute, obj))`. */
  function DerivedAttr(r: Rule): Attr
  {
    Attr(Metric, Derived(r))
  }

  /** The names whose attribute carries one of `tags`. */
  function TaggedNames(attrs: Attrs, tags: set<Tag>): (names: set<string>)
    ensures names <= attrs.Keys
    ensures forall x :: x in attrs && attrs[x].tag in tags ==> x in names
    ensures forall x :: x in names ==> attrs[x].tag in tags
  {
    set x | x in attrs && attrs[x].tag in tags
  }

  function MetricNames(attrs: Attrs): set<string>
  {
    TaggedNames(attrs, {Metric})
  }

  /** Metric- or utility-tagged names: what the first inference pass may use. */
  function MuNames(attrs: Attrs): set<string>
  {
    TaggedNames(attrs, {Metric, Utility})
  }

  function PropNames(attrs: Attrs): set<string>
  {
    TaggedNames(attrs, {Prop})
  }

  /** Python's recursion limit, as it bounds chains of derived metrics. */
  const RecursionLimit: nat := 1000

  /** Calling attribute `name` of an object with attributes `attrs` and own
      methods `own` on positional `args`. A derived metric looks its
      prerequisites up on the object at call time and hands them over
      positionally; `depth` is the remaining recursion budget. */
  function Call(attrs: Attrs, own: string -> Callable, name: string, args: seq<PyVal>, depth: nat): (r: Outcome)
    decreases depth, 1
    ensures name !in attrs ==> r == Err(AttributeError)
    ensures name in attrs && attrs[name].tag in {Metric, Utility} ==> r != Ok(NoneVal)
    ensures name in attrs && attrs[name].binding.Derived? && args != [] ==> r == Err(TypeError)
    ensures name in attrs && attrs[name].binding.Derived? && args == [] && depth == 0 ==> r == Err(RecursionError)
    ensures name in attrs && attrs[name].binding.Own? && attrs[name].tag in {Prop, Untagged} ==> r == own(name)(args)
  {
    if name !in attrs then Err(AttributeError)
    else
      var a := attrs[name];
      match a.binding
      case Own => Decorated(a.tag, own(name)).call(args)
      case Derived(rule) =>
        if args != [] then Err(TypeError)
        else if depth == 0 then Err(RecursionError)
        else if exists p :: p in rule.prereqs && p !in attrs then Err(AttributeError)
        else
          NanForNone(rule.fn.body(Lookups(attrs, own, rule.prereqs, depth - 1)))
  }

  /** `[getattr(obj, req) for req in params]`: one bound attribute per name. */
  function Lookups(attrs: Attrs, own: string -> Callable, names: seq<string>, depth: nat): (fs: seq<Callable>)
    decreases depth + 1, 0
    ensures |fs| == |names|
    ensures forall i, args :: 0 <= i < |names| ==> fs[i](args) == Call(attrs, own, names[i], args, depth)
  {
    seq(|names|, i requires 0 <= i < |names| => (args: seq<PyVal>) => Call(attrs, own, names[i], args, depth))
  }

  /** Calling a derived metric with no arguments evaluates the rule's
      function on the object's current prerequisite attributes, in the
      rule's order, and turns `None` into NaN; a missing prerequisite is an
      AttributeError. */
  lemma DerivedCall(attrs: Attrs, own: string -> Callable, name: string, depth: nat)
    requires name in attrs && attrs[name].binding.Derived? && depth > 0
    ensures var rule := attrs[name].binding.rule;
      (exists p :: p in rule.prereqs && p !in attrs) ==> Call(attrs, own, name, [], depth) == Err(AttributeError)
    ensures var rule := attrs[name].binding.rule;
      (forall p :: p in rule.prereqs ==> p in attrs) ==>
        exists fs: seq<Callable> ::
          |fs| == |rule.prereqs|
          && (forall i, args :: 0 <= i < |fs| ==> fs[i](args) == Call(attrs, own, rule.prereqs[i], args, depth - 1))
          && Call(attrs, own, name, [], depth) == NanForNone(rule.fn.body(fs))
  {
    var rule := attrs[name].binding.rule;
    if forall p :: p in rule.prereqs ==> p in attrs {
      var fs := Lookups(attrs, own, rule.prereqs, depth - 1);
      assert Call(attrs, own, name, [], depth) == NanForNone(rule.fn.body(fs));
    }
  }

  /** The states an explainer object passes through over a run of
      `explain_instance` calls: its state and its attribute table before
      each call, and after the last one. */
  datatype Run = Run(states: seq<PyVal>, attrs: seq<Attrs>)

  /** An explainer object: its attribute table, the state its own methods
      read (the last explanation and whatever the subclass keeps), the
      behaviour of its own methods given that state, and its
      `explain_instance`, which returns the new state and the explanation. */
  class Explainer {
    var attrs: Attrs
    var state: PyVal
    const own: PyVal -> string -> Callable
    const explainFn: (PyVal, Frame) -> Result<(PyVal, PyVal), Error>

    constructor (attrs: Attrs, state: PyVal, own: PyVal -> string -> Callable,
                 explainFn: (PyVal, Frame) -> Result<(PyVal, PyVal), Error>)
      ensures this.attrs == attrs && this.state == state
      ensures this.own == own && this.explainFn == explainFn
    {
      this.attrs := attrs;
      this.state := state;
      this.own := own;
      this.explainFn := explainFn;
    }

    /** `explain_instance`: on success the object keeps the new state and the
        explanation is returned; an exception leaves the object as it was. */
    method ExplainInstance(instance: Frame) returns (r: Outcome)
      modifies this`state
      ensures explainFn(old(state), instance).Err? ==> r == Err(explainFn(old(state), instance).error) && state == old(state)
      ensures explainFn(old(state), instance).Ok? ==> r == Ok(explainFn(old(state), instance).value.1) && state == explainFn(old(state), instance).value.0
    {
      var res := explainFn(state, instance);
      if res.Err? {
        return Err(res.error);
      }
      state := res.value.0;
      r := Ok(res.value.1);
    }
  }

  /** The run starts from the given state and attributes. */
  ghost predicate StartsAt(run: Run, state: PyVal, attrs: Attrs)
  {
    |run.states| > 0 && |run.attrs| > 0 && run.states[0] == state && run.attrs[0] == attrs
  }

  /** The run ends in the given state and attributes. */
  ghost predicate EndsAt(run: Run, state: PyVal, attrs: Attrs)
  {
    |run.states| > 0 && |run.attrs| > 0 && run.states[|run.states| - 1] == state && run.attrs[|run.attrs| - 1] == attrs
  }

  /** Every recorded run of an explainer registered under one name ends in
      the state and attributes `now` gives that name. */
  ghost predicate EndedIn(explainers: map<string, Explainer>, runs: map<string, Run>, now: map<string, (PyVal, Attrs)>)
  {
    forall x :: x in runs && Unshared(explainers, x) ==> x in now && EndsAt(runs[x], now[x].0, now[x].1)
  }

  /** Every explainer registered under one name whose turn is `from` or
      later has in `now` the state and attributes `starts` gives it. */
  ghost predicate WaitingIn(names: seq<string>, explainers: map<string, Explainer>, starts: map<string, (PyVal, Attrs)>,
                            now: map<string, (PyVal, Attrs)>, from: nat)
  {
    forall k :: from <= k < |names| && Unshared(explainers, names[k]) ==>
      names[k] in starts && names[k] in now && starts[names[k]] == now[names[k]]
  }

  /** Where the explainer loop leaves the explainer objects: each one
      registered under one name whose turn finished is in the last state of
      its recorded run, with the attributes inference attached along the
      way, and each one registered under one name whose turn comes after
      turn `done` still has the state `starts` gives it; `now` holds the
      states the explainers are in. */
  ghost predicate EndStates(names: seq<string>, explainers: map<string, Explainer>, starts: map<string, (PyVal, Attrs)>,
                            runs: map<string, Run>, done: nat, now: map<string, (PyVal, Attrs)>)
  {
    EndedIn(explainers, runs, now) && WaitingIn(names, explainers, starts, now, done + 1)
  }

  /** The state and attributes of every registered explainer, by name. */
  ghost function States(explainers: map<string, Explainer>): (s: map<string, (PyVal, Attrs)>)
    reads explainers.Values
    ensures s.Keys == explainers.Keys
  {
    map x | x in explainers :: (explainers[x].state, explainers[x].attrs)
  }

  /** The explainer `name` is registered under no other name. */
  ghost predicate Unshared(explainers: map<string, Explainer>, name: string)
  {
    name in explainers && explainers[name] !in (explainers - {name}).Values
  }

  /** Recording one more run that starts where `starts` says keeps every
      explainer registered under one name starting there. */
  lemma StartsStep(explainers: map<string, Explainer>, runs: map<string, Run>, starts: map<string, (PyVal, Attrs)>,
                   name: string, run: Run)
    requires explainers.Keys <= starts.Keys
    requires forall x :: x in runs && Unshared(explainers, x) ==> StartsAt(runs[x], starts[x].0, starts[x].1)
    requires Unshared(explainers, name) ==> StartsAt(run, starts[name].0, starts[name].1)
    ensures forall x :: x in runs[name := run] && Unshared(explainers, x) ==>
      StartsAt(runs[name := run][x], starts[x].0, starts[x].1)
  {
  }

  /** An explainer registered under one name is not the object of any
      other name. */
  lemma UnsharedApart(explainers: map<string, Explainer>, names: seq<string>, j: nat)
    requires j < |names| && names[j] in explainers
    requires forall k :: 0 <= k < |names| && k != j ==> names[k] != names[j]
    ensures forall k :: 0 <= k < |names| && k != j && Unshared(explainers, names[k]) ==>
      explainers[names[k]] != explainers[names[j]]
  {
    forall k | 0 <= k < |names| && k != j && Unshared(explainers, names[k])
      ensures explainers[names[k]] != explainers[names[j]]
    {
      assert names[j] in explainers - {names[k]};
      assert (explainers - {names[k]})[names[j]] == explainers[names[j]];
    }
  }

  /** A finished turn `j` records a run that starts where the explainer
      stood in `pre` when its turn came; every explainer registered under
      one name still starts where `starts` says. */
  lemma StartsTurn(names: seq<string>, explainers: map<string, Explainer>, j: nat, runs: map<string, Run>,
                   starts: map<string, (PyVal, Attrs)>, pre: map<string, (PyVal, Attrs)>, finished: bool, run: Run,
                   runs': map<string, Run>)
    requires j < |names| && explainers.Keys <= starts.Keys
    requires forall x :: x in runs && Unshared(explainers, x) ==> x in starts && StartsAt(runs[x], starts[x].0, starts[x].1)
    requires WaitingIn(names, explainers, starts, pre, j)
    requires finished ==> names[j] in pre && StartsAt(run, pre[names[j]].0, pre[names[j]].1) && runs' == runs[names[j] := run]
    requires !finished ==> runs' == runs
    ensures forall x :: x in runs' && Unshared(explainers, x) ==> x in starts && StartsAt(runs'[x], starts[x].0, starts[x].1)
  {
    if finished {
      if Unshared(explainers, names[j]) {
        assert names[j] in starts && starts[names[j]] == pre[names[j]];
      }
      StartsStep(explainers, runs, starts, names[j], run);
    }
  }

  /** Turn `j` of the explainer loop changes only the object registered
      under `names[j]`, going from `pre` to `post`; runs recorded for
      earlier turns still end where their explainers are, explainers whose
      turn comes later still wait in their start state, and a finished turn
      that ends in `post` adds its run. */
  lemma {:induction false} TurnStep(names: seq<string>, explainers: map<string, Explainer>, j: nat, runs: map<string, Run>,
                                    starts: map<string, (PyVal, Attrs)>, pre: map<string, (PyVal, Attrs)>,
                                    post: map<string, (PyVal, Attrs)>, finished: bool, run: Run, runs': map<string, Run>)
    requires j < |names| && names[j] in explainers
    requires forall k :: 0 <= k < |names| && k != j ==> names[k] != names[j]
    requires forall x :: x in runs ==> x in names[..j]
    requires pre.Keys == explainers.Keys && post.Keys == explainers.Keys
    requires forall x :: x in explainers && explainers[x] != explainers[names[j]] ==> post[x] == pre[x]
    requires EndedIn(explainers, runs, pre) && WaitingIn(names, explainers, starts, pre, j)
    requires finished ==> EndsAt(run, post[names[j]].0, post[names[j]].1) && runs' == runs[names[j] := run]
    requires !finished ==> runs' == runs
    ensures EndedIn(explainers, runs', post) && WaitingIn(names, explainers, starts, post, j + 1)
  {
    UnsharedApart(explainers, names, j);
    forall x | x in runs && Unshared(explainers, x)
      ensures x in post && EndsAt(runs[x], post[x].0, post[x].1)
    {
      var k :| 0 <= k < j && names[k] == x;
    }
  }
}
