/**
 * `stagger(selector, options, config)`: element `i` of the selection is
 * animated with the options it was given, its delay replaced by the
 * caller's delay (0 when falsy) plus `i` steps of `config.each` (100 when
 * falsy). `Engine.Engine.Stagger` performs the calls.
 */
module Stagger {
  import opened Interp
  import opened Instance

  const DefaultEach: real := 100.0

  /** `config.each || 100`. */
  function Step(each: Option<real>): (r: real)
    ensures r != 0.0
    ensures each.Some? && each.value != 0.0 ==> r == each.value
    ensures each.None? || each.value == 0.0 ==> r == DefaultEach
  {
    OrElse(each, DefaultEach)
  }

  /** `(options.delay || 0) + i * each`. */
  function StaggerDelay(o: Options, each: Option<real>, i: nat): (r: real)
    ensures i == 0 ==> r == OrElse(o.delay, 0.0)
    ensures Step(each) > 0.0 ==> r >= OrElse(o.delay, 0.0)
  {
    OrElse(o.delay, 0.0) + (i as real) * Step(each)
  }

  /** `{ ...options, delay: … }` for element `i`. */
  function StaggerOptions(o: Options, each: Option<real>, i: nat): (r: Options)
    ensures r.delay == Some(StaggerDelay(o, each, i))
    ensures r.(delay := o.delay) == o
  {
    o.(delay := Some(StaggerDelay(o, each, i)))
  }

  /** The first element starts at the caller's delay and each next one a
      fixed step later; an absent or zero `each` is a step of 100. */
  lemma StaggerSpacing(o: Options, each: Option<real>, i: nat)
    ensures StaggerDelay(o, each, 0) == OrElse(o.delay, 0.0)
    ensures StaggerDelay(o, each, i + 1) - StaggerDelay(o, each, i) == Step(each)
    ensures (each.None? || each.value == 0.0) ==> Step(each) == DefaultEach
    ensures each.Some? && each.value != 0.0 ==> Step(each) == each.value
  {
  }

  /** A positive step spreads the start times strictly apart, in selection
      order. */
  lemma {:induction false} StaggerIncreasing(o: Options, each: Option<real>, i: nat, j: nat)
    requires Step(each) > 0.0 && i < j
    ensures StaggerDelay(o, each, i) < StaggerDelay(o, each, j)
    decreases j - i
  {
    StaggerSpacing(o, each, i);
    if i + 1 < j {
      StaggerIncreasing(o, each, i + 1, j);
    }
  }
}
