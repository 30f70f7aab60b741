/**
 * `timeline()`: a builder that records steps and runs them on `play()`.
 * `to` records an `animate` call whose delay is the closure variable
 * `totalDelay`, and then advances that variable by the step's duration
 * (`options.duration || 1000`). The recorded call reads the variable when
 * it runs, not when it was recorded, so every `to` step plays with the
 * final total. `from` writes the given scale and opacity to the selected
 * elements at once and then records a `to`. `add` records a callback with
 * its offset (0 when absent).
 */
module Timeline {
  import opened Interp
  import opened Transforms
  import opened Instance
  import opened Engine

  const DefaultStepDuration: real := 1000.0

  /** A recorded step: an `animate` on a selector, or a user callback,
      named by an identifier, with its offset. */
  datatype Step = To(selector: string, o: Options) | Call(fn: nat, offset: real)

  /** `options.duration || 1000`: a missing or zero duration counts 1000. */
  function StepDuration(o: Options): (r: real)
    ensures r != 0.0
    ensures o.duration.Some? && o.duration.value != 0.0 ==> r == o.duration.value
    ensures o.duration.None? || o.duration.value == 0.0 ==> r == DefaultStepDuration
  {
    OrElse(o.duration, DefaultStepDuration)
  }

  /** The sum of the durations of the `to` steps of `steps`. */
  function SumDurations(steps: seq<Step>): real
  {
    if steps == [] then 0.0
    else
      var last := steps[|steps| - 1];
      SumDurations(steps[..|steps| - 1]) + (if last.To? then StepDuration(last.o) else 0.0)
  }

  /** The options a `to` step is played with: `{ ...options, delay: totalDelay }`. */
  function Played(o: Options, total: real): (r: Options)
    ensures r.delay == Some(total) && r.(delay := o.delay) == o
    ensures Duration(r) == Duration(o)
  {
    o.(delay := Some(total))
  }

  /** The `animate` calls `play()` makes, in order: for each `to` step, one
      per element its selector selects when `play` runs, every one with the
      delay `total`. */
  function Plan(steps: seq<Step>, select: string -> seq<Elem>, total: real): (r: seq<(Elem, Options)>)
    ensures forall k :: 0 <= k < |r| ==> r[k].1.delay == Some(total)
  {
    if steps == [] then []
    else
      Plan(steps[..|steps| - 1], select, total) + StepPlan(steps[|steps| - 1], select, total)
  }

  /** The `animate` calls of one step. */
  function StepPlan(step: Step, select: string -> seq<Elem>, total: real): seq<(Elem, Options)>
  {
    if step.To? then ToPlan(select(step.selector), Played(step.o, total)) else []
  }

  function ToPlan(els: seq<Elem>, o: Options): (r: seq<(Elem, Options)>)
    ensures |r| == |els|
    ensures forall k :: 0 <= k < |els| ==> r[k] == (els[k], o)
  {
    if els == [] then [] else [(els[0], o)] + ToPlan(els[1..], o)
  }

  /** The callbacks `play()` invokes, in order, with their offsets. */
  function Calls(steps: seq<Step>): seq<(nat, real)>
  {
    if steps == [] then []
    else
      Calls(steps[..|steps| - 1]) + StepCalls(steps[|steps| - 1])
  }

  function StepCalls(step: Step): seq<(nat, real)>
  {
    if step.Call? then [(step.fn, step.offset)] else []
  }

  predicate AllAnimatable(steps: seq<Step>)
  {
    forall k :: 0 <= k < |steps| && steps[k].To? ==> Animatable(steps[k].o)
  }

  /** Every `animate` call of a play comes from a `to` step of the
      timeline: its element is one the step's selector selects and its
      options are the step's, with the delay replaced. */
  lemma {:induction false} PlanSource(steps: seq<Step>, select: string -> seq<Elem>, total: real, k: nat) returns (j: nat)
    requires k < |Plan(steps, select, total)|
    ensures j < |steps| && steps[j].To?
    ensures Plan(steps, select, total)[k].0 in select(steps[j].selector)
    ensures Plan(steps, select, total)[k].1 == Played(steps[j].o, total)
  {
    var init := steps[..|steps| - 1];
    var last := steps[|steps| - 1];
    var p := Plan(init, select, total);
    assert Plan(steps, select, total) == p + StepPlan(last, select, total);
    if k < |p| {
      j := PlanSource(init, select, total, k);
      assert steps[j] == init[j];
    } else {
      j := |steps| - 1;
      var els := select(last.selector);
      assert Plan(steps, select, total)[k] == ToPlan(els, Played(last.o, total))[k - |p|];
      assert els[k - |p|] in els;
    }
  }

  /** A sequence of `to` steps of positive durations ends later than any of
      its proper prefixes: the shared delay is the one of the last step's
      end, not of any earlier step's start. */
  lemma {:induction false} SumGrows(steps: seq<Step>, n: nat)
    requires n < |steps| && forall k :: 0 <= k < |steps| && steps[k].To? ==> StepDuration(steps[k].o) > 0.0
    requires steps[n].To?
    ensures SumDurations(steps[..n]) < SumDurations(steps)
    decreases |steps|
  {
    var init := steps[..|steps| - 1];
    if n < |steps| - 1 {
      assert init[..n] == steps[..n];
      SumGrows(init, n);
      SumNonDecreasing(steps);
    } else {
      assert init == steps[..n];
    }
  }

  lemma SumNonDecreasing(steps: seq<Step>)
    requires steps != [] && forall k :: 0 <= k < |steps| && steps[k].To? ==> StepDuration(steps[k].o) > 0.0
    ensures SumDurations(steps[..|steps| - 1]) <= SumDurations(steps)
  {
  }

  /** The `scale` write of `from` on one element: `transform: scale(s)`. */
  function ScaleOnly(s: real): (r: Transform)
    ensures r.scale == s && r.(scale := 1.0) == Identity
  {
    Identity.(scale := s)
  }

  /** The style records after `from` wrote to `els` in order. */
  function FromTransforms(m: map<Elem, Transform>, els: seq<Elem>, o: Options): map<Elem, Transform>
  {
    if els == [] || o.scale.None? then m
    else FromTransforms(m, els[..|els| - 1], o)[els[|els| - 1] := ScaleOnly(o.scale.value)]
  }

  function FromOpacities(m: map<Elem, Num>, els: seq<Elem>, o: Options): map<Elem, Num>
  {
    if els == [] || o.opacity.None? then m
    else FromOpacities(m, els[..|els| - 1], o)[els[|els| - 1] := Num(o.opacity.value)]
  }

  /** `from` leaves every selected element scaled to the given scale and
      every other element as it was. */
  lemma {:induction false} FromTransformsAt(m: map<Elem, Transform>, els: seq<Elem>, o: Options)
    ensures forall el :: el in els && o.scale.Some? ==> el in FromTransforms(m, els, o) && FromTransforms(m, els, o)[el] == ScaleOnly(o.scale.value)
    ensures forall el :: el !in els || o.scale.None? ==>
              (el in FromTransforms(m, els, o) <==> el in m) && (el in m ==> FromTransforms(m, els, o)[el] == m[el])
  {
    if els != [] && o.scale.Some? {
      FromTransformsAt(m, els[..|els| - 1], o);
      assert forall el :: el in els ==> el in els[..|els| - 1] || el == els[|els| - 1];
    }
  }

  /** Likewise for the opacity write. */
  lemma {:induction false} FromOpacitiesAt(m: map<Elem, Num>, els: seq<Elem>, o: Options)
    ensures forall el :: el in els && o.opacity.Some? ==> el in FromOpacities(m, els, o) && FromOpacities(m, els, o)[el] == Num(o.opacity.value)
    ensures forall el :: el !in els || o.opacity.None? ==>
              (el in FromOpacities(m, els, o) <==> el in m) && (el in m ==> FromOpacities(m, els, o)[el] == m[el])
  {
    if els != [] && o.opacity.Some? {
      FromOpacitiesAt(m, els[..|els| - 1], o);
      assert forall el :: el in els ==> el in els[..|els| - 1] || el == els[|els| - 1];
    }
  }

  /** The object `timeline()` returns, with its two closure variables. */
  class Timeline {
    var steps: seq<Step>
    var totalDelay: real

    /** `totalDelay` is the sum of the `to` durations recorded so far. */
    ghost predicate Valid()
      reads this
    {
      totalDelay == SumDurations(steps)
    }

    constructor ()
      ensures steps == [] && totalDelay == 0.0 && Valid()
    {
      steps := [];
      totalDelay := 0.0;
    }

    /** `to(selector, options)`. */
    method To(selector: string, o: Options)
      requires Valid()
      modifies this
      ensures steps == old(steps) + [Step.To(selector, o)]
      ensures totalDelay == old(totalDelay) + StepDuration(o)
      ensures Valid()
    {
      steps := steps + [Step.To(selector, o)];
      totalDelay := totalDelay + StepDuration(o);
      assert steps[..|steps| - 1] == old(steps);
    }

    /** `add(fn, offset = 0)`. */
    method Add(fn: nat, offset: Option<real>)
      requires Valid()
      modifies this
      ensures steps == old(steps) + [Call(fn, Default(offset, 0.0))]
      ensures totalDelay == old(totalDelay) && Valid()
    {
      steps := steps + [Call(fn, Default(offset, 0.0))];
      assert steps[..|steps| - 1] == old(steps);
    }

    /** `from(selector, options)`: the style writes on the elements the
        selector selects now, then `to`. */
    method From(selector: string, o: Options, els: seq<Elem>, page: Page)
      requires Valid()
      modifies this, page
      ensures page.transforms == FromTransforms(old(page.transforms), els, o)
      ensures page.opacities == FromOpacities(old(page.opacities), els, o)
      ensures steps == old(steps) + [Step.To(selector, o)]
      ensures totalDelay == old(totalDelay) + StepDuration(o)
      ensures Valid()
    {
      var k := 0;
      while k < |els|
        invariant 0 <= k <= |els|
        modifies page
        invariant page.transforms == FromTransforms(old(page.transforms), els[..k], o)
        invariant page.opacities == FromOpacities(old(page.opacities), els[..k], o)
      {
        assert els[..k + 1][..k] == els[..k];
        if o.scale.Some? {
          page.transforms := page.transforms[els[k] := ScaleOnly(o.scale.value)];
        }
        if o.opacity.Some? {
          page.opacities := page.opacities[els[k] := Num(o.opacity.value)];
        }
        k := k + 1;
      }
      assert els[..k] == els;
      To(selector, o);
    }

    /** What `play` has done after its first `k` steps, starting from the
        engine's list `start`. */
    ghost predicate PlayedUpTo(k: nat, engine: Engine, start: seq<Animation>, created: seq<Animation>,
                               calls: seq<(nat, real)>, select: string -> seq<Elem>, now: real,
                               computedOpacity: Elem -> real)
      reads this, engine, engine.animations, created
    {
      && k <= |steps|
      && engine.Valid() && engine.animations == start + created
      && calls == Calls(steps[..k])
      && Built(created, Plan(steps[..k], select, totalDelay), engine.positionStore, now, computedOpacity)
    }

    /** Step `k` of `play`: the `animate` call of a `to` step, or the call
        of a callback step. */
    method PlayStep(k: nat, engine: Engine, ghost start: seq<Animation>, created: seq<Animation>,
                    calls: seq<(nat, real)>, select: string -> seq<Elem>, now: real, computedOpacity: Elem -> real)
      returns (created': seq<Animation>, calls': seq<(nat, real)>)
      requires k < |steps| && AllAnimatable(steps)
      requires PlayedUpTo(k, engine, start, created, calls, select, now, computedOpacity)
      modifies engine`animations, engine`running, engine`pendingFrames
      ensures PlayedUpTo(k + 1, engine, start, created', calls', select, now, computedOpacity)
    {
      PlanStep(steps, select, totalDelay, k);
      var step := steps[k];
      if step.To? {
        var more := PlayTo(engine, select(step.selector), Played(step.o, totalDelay), now, computedOpacity);
        Regroup(start, created, more);
        BuiltAppend(created, Plan(steps[..k], select, totalDelay), more, StepPlan(step, select, totalDelay),
                    engine.positionStore, now, computedOpacity);
        created', calls' := created + more, calls;
      } else {
        created', calls' := created, calls + [(step.fn, step.offset)];
      }
    }

    /** `play()`: run the steps in order. A `to` step animates what its
        selector selects at this point (`select`), with the delay the
        closure variable holds now; a callback step is recorded in `calls`. */
    method Play(engine: Engine, select: string -> seq<Elem>, now: real, computedOpacity: Elem -> real)
      returns (created: seq<Animation>, calls: seq<(nat, real)>)
      requires engine.Valid() && AllAnimatable(steps)
      modifies engine`animations, engine`running, engine`pendingFrames
      ensures engine.Valid() && engine.animations == old(engine.animations) + created
      ensures calls == Calls(steps)
      ensures Built(created, Plan(steps, select, totalDelay), engine.positionStore, now, computedOpacity)
    {
      created, calls := [], [];
      var k := 0;
      while k < |steps|
        invariant PlayedUpTo(k, engine, old(engine.animations), created, calls, select, now, computedOpacity)
      {
        created, calls := PlayStep(k, engine, old(engine.animations), created, calls, select, now, computedOpacity);
        k := k + 1;
      }
      assert steps[..k] == steps;
    }
  }

  /** One `animate` call of `play`. */
  method PlayTo(engine: Engine, els: seq<Elem>, o: Options, now: real, computedOpacity: Elem -> real)
    returns (more: seq<Animation>)
    requires engine.Valid() && Animatable(o)
    modifies engine`animations, engine`running, engine`pendingFrames
    ensures engine.Valid() && engine.animations == old(engine.animations) + more
    ensures Built(more, ToPlan(els, o), engine.positionStore, now, computedOpacity)
  {
    more := engine.Animate(els, o, now, computedOpacity);
  }

  /** `created[k]` is the instance `animate` built for call `k` of `plan`:
      its constants, and its start and target taken from `store`. */
  predicate Built(created: seq<Animation>, plan: seq<(Elem, Options)>, store: map<Elem, Transform>,
                  now: real, computedOpacity: Elem -> real)
    reads created
  {
    && |created| == |plan|
    && forall k :: 0 <= k < |created| ==>
         && created[k].cfg == BuildConfig(plan[k].0, plan[k].1, now, computedOpacity(plan[k].0))
         && created[k].State() == InitialState(store, plan[k].0, plan[k].1)
  }

  lemma BuiltAppend(a: seq<Animation>, pa: seq<(Elem, Options)>, b: seq<Animation>, pb: seq<(Elem, Options)>,
                    store: map<Elem, Transform>, now: real, computedOpacity: Elem -> real)
    requires Built(a, pa, store, now, computedOpacity) && Built(b, pb, store, now, computedOpacity)
    ensures Built(a + b, pa + pb, store, now, computedOpacity)
  {
    forall k | |a| <= k < |a + b|
      ensures (a + b)[k].cfg == BuildConfig((pa + pb)[k].0, (pa + pb)[k].1, now, computedOpacity((pa + pb)[k].0))
      ensures (a + b)[k].State() == InitialState(store, (pa + pb)[k].0, (pa + pb)[k].1)
    {
      assert (a + b)[k] == b[k - |a|] && (pa + pb)[k] == pb[k - |a|];
    }
  }

  /** Running step `k` extends the plan and the calls of the steps before
      it by what that step does. */
  lemma PlanStep(steps: seq<Step>, select: string -> seq<Elem>, total: real, k: nat)
    requires k < |steps|
    ensures Plan(steps[..k + 1], select, total) == Plan(steps[..k], select, total) + StepPlan(steps[k], select, total)
    ensures Calls(steps[..k + 1]) == Calls(steps[..k]) + StepCalls(steps[k])
  {
    assert steps[..k + 1][..k] == steps[..k] && steps[..k + 1][k] == steps[k];
  }

  /** Every instance a play creates has the same delay, the final total:
      each starts the final total after the clock sample of its `animate`
      call (one sample `now` per call in this model). */
  lemma PlayStartsTogether(created: seq<Animation>, steps: seq<Step>, select: string -> seq<Elem>,
                           total: real, store: map<Elem, Transform>, now: real, computedOpacity: Elem -> real)
    requires Built(created, Plan(steps, select, total), store, now, computedOpacity)
    ensures forall k :: 0 <= k < |created| ==> created[k].cfg.startTime == now + total
  {
  }
}
