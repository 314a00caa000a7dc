/** The tagging decorators of xaibenchmark/decorators.py: `metric` and
    `utility` wrap a callable, forward its positional arguments, turn a `None`
    result into NaN and mark the wrapper with a tag. That file defines no
    `prop` wrapper: `prop` is only a tag the report code selects on, and a
    prop-tagged callable returns what its function returns. */
module Tagging {
  import opened Values

  /** The `tag` attribute of a callable (`Untagged`: no such attribute). */
  datatype Tag = Metric | Utility | Prop | Untagged

  /** A Python callable: positional arguments in, a value or an exception out. */
  type Callable = seq<PyVal> -> Outcome

  /** A tagged wrapper: the tag it carries and the function it exposes. */
  datatype Wrapper = Wrapper(tag: Tag, call: Callable)

  /** The wrapper's post-processing of a result: `None` becomes NaN,
      everything else, exceptions included, passes through. */
  function NanForNone(o: Outcome): (r: Outcome)
    ensures o == Ok(NoneVal) ==> r == Ok(NaN)
    ensures o != Ok(NoneVal) ==> r == o
    ensures r != Ok(NoneVal)
  {
    if o == Ok(NoneVal) then Ok(NaN) else o
  }

  /** `@metric`. */
  function MetricDecorator(fn: Callable): (w: Wrapper)
    ensures w.tag == Metric
    ensures forall args :: fn(args) == Ok(NoneVal) ==> w.call(args) == Ok(NaN)
    ensures forall args :: fn(args) != Ok(NoneVal) ==> w.call(args) == fn(args)
  {
    Wrapper(Metric, args => NanForNone(fn(args)))
  }

  /** `@utility`. */
  function UtilityDecorator(fn: Callable): (w: Wrapper)
    ensures w.tag == Utility
    ensures forall args :: fn(args) == Ok(NoneVal) ==> w.call(args) == Ok(NaN)
    ensures forall args :: fn(args) != Ok(NoneVal) ==> w.call(args) == fn(args)
  {
    Wrapper(Utility, args => NanForNone(fn(args)))
  }

  /** How an attribute carrying `tag` behaves when called: metrics and
      utilities go through their decorator, props and untagged callables
      return what the function returns. */
  function Decorated(tag: Tag, fn: Callable): (w: Wrapper)
    ensures w.tag == tag
    ensures tag == Metric || tag == Utility ==> forall args :: w.call(args) != Ok(NoneVal)
    ensures tag == Prop || tag == Untagged ==> forall args :: w.call(args) == fn(args)
  {
    match tag
    case Metric => MetricDecorator(fn)
    case Utility => UtilityDecorator(fn)
    case Prop => Wrapper(Prop, fn)
    case Untagged => Wrapper(Untagged, fn)
  }

  /** Both decorators keep 0, False, NaN and every exception as they are:
      only `None` is rewritten. */
  lemma DecoratorsKeepFalsyResults(fn: Callable, args: seq<PyVal>)
    requires fn(args) in {Ok(Num(0.0)), Ok(Bool(false)), Ok(NaN)} || fn(args).Err?
    ensures MetricDecorator(fn).call(args) == fn(args)
    ensures UtilityDecorator(fn).call(args) == fn(args)
  {
  }
}
