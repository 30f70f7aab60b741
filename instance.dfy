/**
 * One animation instance as `animate` builds it for one element, and what
 * one call of its `update(time)` does, as pure functions of the instance's
 * closure state. The class `Engine.Animation` is proved to behave as these
 * functions say; the lemmas here state what the engine promises about them.
 */
module Instance {
  import opened Interp
  import opened Transforms
  import opened Keyframes

  /** The options object given to `animate`; `None` is a key that is absent.
      Callbacks are reduced to whether they are present. */
  datatype Options = Options(
    x: Option<real>, y: Option<real>, z: Option<real>, scale: Option<real>,
    rotate: Option<real>, skewX: Option<real>, skewY: Option<real>,
    opacity: Option<real>, duration: Option<real>, delay: Option<real>,
    ease: Option<string>, keyframes: Option<Keyframes>, repeat: Option<int>,
    yoyo: bool, savePos: bool, onUpdate: bool, onComplete: bool)

  /** `{}`: every option takes its default. */
  const NoOptions: Options := Options(None, None, None, None, None, None, None, None, None, None,
                                      None, None, None, false, false, false, false)

  const DefaultDuration: real := 1000.0
  const DefaultEase: string := "easeOutCubic"

  function Duration(o: Options): real
  {
    Default(o.duration, DefaultDuration)
  }

  /** A zero duration divides by zero in the progress computation; it is
      excluded rather than modelled. */
  predicate Animatable(o: Options)
  {
    Duration(o) != 0.0
  }

  /** The target transform: six offsets added to the base and the scale
      multiplied into it; absent offsets are 0 and an absent scale is 1. */
  function Targets(base: Transform, o: Options): (r: Transform)
    ensures r.x - base.x == Default(o.x, 0.0) && r.y - base.y == Default(o.y, 0.0)
    ensures r.z - base.z == Default(o.z, 0.0) && r.rotate - base.rotate == Default(o.rotate, 0.0)
    ensures r.skewX - base.skewX == Default(o.skewX, 0.0) && r.skewY - base.skewY == Default(o.skewY, 0.0)
    ensures r.scale == base.scale * Default(o.scale, 1.0)
    ensures o == NoOptions ==> r == base
  {
    Transform(base.x + Default(o.x, 0.0), base.y + Default(o.y, 0.0), base.z + Default(o.z, 0.0),
              base.scale * Default(o.scale, 1.0), base.rotate + Default(o.rotate, 0.0),
              base.skewX + Default(o.skewX, 0.0), base.skewY + Default(o.skewY, 0.0))
  }

  /** The constants an `update` closure captures. `startTime` is
      `performance.now() + delay` at build time; `initialOpacity` is the
      element's computed opacity read at build time. */
  datatype Config = Config(
    el: Elem, startTime: real, duration: real, ease: Curve,
    keyframes: Option<Keyframes>, opacity: Option<real>, initialOpacity: real,
    repeat: int, yoyo: bool, savePos: bool, onUpdate: bool, onComplete: bool)

  /** The mutable part of an instance: its start and target transforms
      (no target in keyframe mode), the cycle counter, the `done` flag, the
      `this.startTime` property that a restart writes and nothing reads, and
      a record of the callback calls (the arguments of `onUpdate`, the number
      of `onComplete` calls). */
  datatype AnimState = AnimState(
    startValues: Transform, targetValues: Option<Transform>, cycles: nat, done: bool,
    stamp: Option<real>, updates: seq<real>, completions: nat)

  /** What an update can change outside the instance: the position store
      and the last transform and opacity written to each element's style. */
  datatype World = World(store: map<Elem, Transform>, transforms: map<Elem, Transform>, opacities: map<Elem, Num>)

  /** The closure constants of `animate(el, o)` called at clock `now`. */
  function BuildConfig(el: Elem, o: Options, now: real, computedOpacity: real): (c: Config)
    ensures c.el == el && c.keyframes == o.keyframes && c.opacity == o.opacity
    ensures c.startTime == now + Default(o.delay, 0.0) && (o.delay.None? ==> c.startTime == now)
    ensures c.duration == Duration(o) && (o.duration.None? ==> c.duration == 1000.0)
    ensures o.ease.None? ==> c.ease == EaseOutCubic
    ensures o.ease.Some? ==> c.ease == CurveNamed(o.ease.value)
    ensures c.repeat == Default(o.repeat, 0) && (o.repeat.None? ==> c.repeat == 0)
    ensures c.yoyo == o.yoyo && c.savePos == o.savePos && c.onUpdate == o.onUpdate && c.onComplete == o.onComplete
    ensures c.initialOpacity == computedOpacity
  {
    Config(el, now + Default(o.delay, 0.0), Duration(o), CurveNamed(Default(o.ease, DefaultEase)), o.keyframes,
           o.opacity, computedOpacity, Default(o.repeat, 0), o.yoyo, o.savePos, o.onUpdate, o.onComplete)
  }

  /** The initial closure state: the start is a copy of the base transform
      and the target is built from it unless keyframes are given. */
  function InitialState(store: map<Elem, Transform>, el: Elem, o: Options): (st: AnimState)
    ensures st.startValues == BaseTransform(store, el)
    ensures st.targetValues.Some? <==> o.keyframes.None?
    ensures st.targetValues.Some? ==> st.targetValues.value == Targets(BaseTransform(store, el), o)
    ensures st.cycles == 0 && !st.done && st.updates == [] && st.completions == 0
  {
    var base := BaseTransform(store, el);
    AnimState(base, if o.keyframes.None? then Some(Targets(base, o)) else None, 0, false, None, [], 0)
  }

  /** The invariant of every instance: a non-zero duration, and a target
      exactly in plain (non-keyframe) mode. */
  predicate Ready(cfg: Config, st: AnimState)
  {
    cfg.duration != 0.0 && (st.targetValues.Some? <==> cfg.keyframes.None?)
  }

  /** Raw progress, clamped to [0,1]. */
  function Progress(cfg: Config, time: real): (p: real)
    requires cfg.duration != 0.0
    ensures 0.0 <= p <= 1.0
    ensures time == cfg.startTime ==> p == 0.0
    ensures cfg.duration > 0.0 ==> (p == 1.0 <==> time >= cfg.startTime + cfg.duration)
  {
    QuotientAtLeastOne(time - cfg.startTime, cfg.duration);
    Clamp((time - cfg.startTime) / cfg.duration)
  }

  /** The tick passes the delay gate and reaches the end of a cycle. */
  predicate CycleEnds(cfg: Config, time: real)
    requires cfg.duration != 0.0
  {
    time >= cfg.startTime && Progress(cfg, time) >= 1.0
  }

  /** `m` after a write of `v` to `el`, if there is one. */
  function Put<V>(m: map<Elem, V>, el: Elem, v: Option<V>): map<Elem, V>
  {
    if v.Some? then m[el := v.value] else m
  }

  /** A second write to the same element replaces the first. */
  lemma PutAgain<V>(m: map<Elem, V>, el: Elem, a: Option<V>, b: Option<V>)
    ensures Put(Put(m, el, a), el, b) == Put(m, el, if b.Some? then b else a)
  {
  }

  /** Record the writes of one keyframe pass on the style of `el`. */
  function ApplyWrites(w: World, el: Elem, wr: Writes): World
  {
    w.(transforms := Put(w.transforms, el, wr.transform), opacities := Put(w.opacities, el, wr.opacity))
  }

  /** The completion check at raw progress `p`, on the state left after the
      `onUpdate` call: a finished cycle either restarts (counting a repeat,
      swapping the pair for yoyo in plain mode, writing `this.startTime`)
      or marks the instance done and calls `onComplete`. */
  function Settle(cfg: Config, st: AnimState, p: real, now: real): (r: AnimState)
    requires Ready(cfg, st)
    ensures Ready(cfg, r)
    ensures !r.done ==> r.completions == st.completions
    ensures p < 1.0 ==> r == st
    ensures r.updates == st.updates
  {
    if p < 1.0 then st
    else if st.cycles < cfg.repeat then
      var swap := cfg.yoyo && cfg.keyframes.None?;
      st.(cycles := st.cycles + 1,
          startValues := if swap then st.targetValues.value else st.startValues,
          targetValues := if swap then Some(st.startValues) else st.targetValues,
          stamp := Some(now))
    else
      st.(done := true, completions := if cfg.onComplete then st.completions + 1 else st.completions)
  }

  /** The closure state after `update(time)`; `now` is the clock sample of
      the `this.startTime = performance.now()` write. */
  function NextState(cfg: Config, st: AnimState, time: real, now: real, spring: real -> real): (r: AnimState)
    requires Ready(cfg, st)
    ensures Ready(cfg, r)
    ensures time < cfg.startTime ==> r == st
    ensures !r.done ==> r.completions == st.completions
  {
    if time < cfg.startTime then st
    else
      var p := Progress(cfg, time);
      var e := Ease(cfg.ease, p, spring);
      Settle(cfg, st.(updates := if cfg.onUpdate then st.updates + [e] else st.updates), p, now)
  }

  /** The `onUpdate` record after an update past the gate: the callback,
      when present, receives the eased progress. */
  function OnUpdateCalls(cfg: Config, st: AnimState, time: real, spring: real -> real): seq<real>
    requires cfg.duration != 0.0
  {
    if cfg.onUpdate then st.updates + [Ease(cfg.ease, Progress(cfg, time), spring)] else st.updates
  }

  /** Every update past the gate calls `onUpdate` once, if present, with the
      eased progress, whatever the completion check then does. */
  lemma OnUpdateGetsEased(cfg: Config, st: AnimState, time: real, now: real, spring: real -> real)
    requires Ready(cfg, st) && time >= cfg.startTime
    ensures NextState(cfg, st, time, now, spring).updates == OnUpdateCalls(cfg, st, time, spring)
  {
  }

  /** An update past the gate that ends no cycle only records the
      `onUpdate` call: counter, pair, `done` and completions stay as they
      were, and the store is not written. */
  lemma MidCycleTick(cfg: Config, st: AnimState, w: World, time: real, now: real, spring: real -> real)
    requires Ready(cfg, st) && time >= cfg.startTime && !CycleEnds(cfg, time)
    ensures NextState(cfg, st, time, now, spring) == st.(updates := OnUpdateCalls(cfg, st, time, spring))
    ensures NextWorld(cfg, st, w, time, spring).store == w.store
  {
  }

  /** The position store after the completion check: the final end of a
      cycle of a plain `savePos` animation saves its target. */
  function SaveStore(cfg: Config, st: AnimState, store: map<Elem, Transform>, p: real): (r: map<Elem, Transform>)
    requires Ready(cfg, st)
    ensures r != store ==> p >= 1.0 && st.cycles >= cfg.repeat && cfg.savePos && cfg.keyframes.None?
    ensures p >= 1.0 && st.cycles >= cfg.repeat && cfg.savePos && cfg.keyframes.None? ==>
              r == store[cfg.el := st.targetValues.value]
  {
    if p >= 1.0 && !(st.cycles < cfg.repeat) && cfg.savePos && cfg.keyframes.None? then
      store[cfg.el := st.targetValues.value]
    else store
  }

  /** The style writes of one `update` past the delay gate, at raw progress
      `p` and eased value `e`: keyframe mode writes what the segment loop
      leaves, plain mode the blend of start and target and, if an opacity
      target is given, the blend of the initial opacity towards it. */
  function Render(cfg: Config, st: AnimState, w: World, p: real, e: real): (r: World)
    requires Ready(cfg, st)
    ensures r.store == w.store
  {
    if cfg.keyframes.Some? then ApplyWrites(w, cfg.el, KeyframeWrites(cfg.keyframes.value, p))
    else
      w.(transforms := w.transforms[cfg.el := LerpTransform(st.startValues, st.targetValues.value, e)],
         opacities := if cfg.opacity.Some? then w.opacities[cfg.el := Num(Lerp(cfg.initialOpacity, cfg.opacity.value, e))]
                      else w.opacities)
  }

  /** The store and the style records after `update(time)`. */
  function NextWorld(cfg: Config, st: AnimState, w: World, time: real, spring: real -> real): (r: World)
    requires Ready(cfg, st)
    ensures time < cfg.startTime ==> r == w
  {
    if time < cfg.startTime then w
    else
      var p := Progress(cfg, time);
      var w1 := Render(cfg, st, w, p, Ease(cfg.ease, p, spring));
      w1.(store := SaveStore(cfg, st, w1.store, p))
  }

  /** The ticks an instance sees until the scheduler drops it: a done
      instance is spliced out in the tick that finishes it. */
  function Run(cfg: Config, st: AnimState, times: seq<real>, now: real, spring: real -> real): (r: AnimState)
    requires Ready(cfg, st)
    ensures Ready(cfg, r)
    ensures st.done ==> r == st
    ensures r.cycles >= st.cycles && r.completions >= st.completions
    decreases |times|
  {
    if times == [] || st.done then st
    else Run(cfg, NextState(cfg, st, times[0], now, spring), times[1..], now, spring)
  }

  lemma QuotientAtLeastOne(n: real, d: real)
    ensures d > 0.0 ==> (n / d >= 1.0 <==> n >= d)
  {
    if d > 0.0 {
      if n >= d {
        assert n / d >= d / d;
      } else {
        assert n / d < d / d;
      }
    }
  }

  lemma QuotientNonPositive(n: real, d: real)
    requires d < 0.0 && n >= 0.0
    ensures n / d <= 0.0
  {
    assert n / d == -(n / -d);
  }

  /** With a positive duration, a tick ends a cycle exactly when at least a
      duration has passed since the captured start time. */
  lemma CycleEndsAfterDuration(cfg: Config, time: real)
    requires cfg.duration > 0.0
    ensures CycleEnds(cfg, time) <==> time >= cfg.startTime + cfg.duration
  {
    QuotientAtLeastOne(time - cfg.startTime, cfg.duration);
  }

  /** Completion is decided on raw progress, never on the eased value: an
      instance finishes on the tick at which a full duration has passed and
      no repeat is left, whatever its easing curve. */
  lemma CompletionOnRawProgress(cfg: Config, st: AnimState, time: real, now: real, spring: real -> real, otherEase: Curve)
    requires Ready(cfg, st) && cfg.duration > 0.0 && !st.done
    ensures NextState(cfg, st, time, now, spring).done <==>
              time >= cfg.startTime + cfg.duration && st.cycles >= cfg.repeat
    ensures NextState(cfg.(ease := otherEase), st, time, now, spring).done == NextState(cfg, st, time, now, spring).done
  {
    CycleEndsAfterDuration(cfg, time);
  }

  /** A negative duration never lets progress leave 0: such an instance
      never ends a cycle and stays scheduled for ever. */
  lemma NegativeDurationNeverEnds(cfg: Config, st: AnimState, time: real, now: real, spring: real -> real)
    requires Ready(cfg, st) && cfg.duration < 0.0 && !st.done
    ensures time >= cfg.startTime ==> Progress(cfg, time) == 0.0
    ensures !CycleEnds(cfg, time)
    ensures NextState(cfg, st, time, now, spring).cycles == st.cycles
    ensures !NextState(cfg, st, time, now, spring).done
  {
    if time >= cfg.startTime {
      QuotientNonPositive(time - cfg.startTime, cfg.duration);
    }
  }

  /** The end of a cycle with repeats left: the counter moves by exactly one,
      the instance is not done, nothing completes, the store is untouched,
      and the start/target pair is swapped iff yoyo is set in plain mode. */
  lemma RestartingTick(cfg: Config, st: AnimState, w: World, time: real, now: real, spring: real -> real)
    requires Ready(cfg, st) && CycleEnds(cfg, time) && st.cycles < cfg.repeat
    ensures var r := NextState(cfg, st, time, now, spring);
      && r.cycles == st.cycles + 1 && r.done == st.done && r.completions == st.completions
      && r.updates == OnUpdateCalls(cfg, st, time, spring)
      && (if cfg.yoyo && cfg.keyframes.None?
          then r.startValues == st.targetValues.value && r.targetValues == Some(st.startValues)
          else r.startValues == st.startValues && r.targetValues == st.targetValues)
    ensures NextWorld(cfg, st, w, time, spring).store == w.store
  {
  }

  /** The final end of a cycle: the instance is done, `onComplete` is called
      once if present, and the target is saved for the element iff `savePos`
      is set in plain mode. */
  lemma FinishingTick(cfg: Config, st: AnimState, w: World, time: real, now: real, spring: real -> real)
    requires Ready(cfg, st) && CycleEnds(cfg, time) && !(st.cycles < cfg.repeat)
    ensures var r := NextState(cfg, st, time, now, spring);
      && r.done && r.cycles == st.cycles
      && r.updates == OnUpdateCalls(cfg, st, time, spring)
      && r.completions == (if cfg.onComplete then st.completions + 1 else st.completions)
    ensures var s := NextWorld(cfg, st, w, time, spring).store;
      if cfg.savePos && cfg.keyframes.None? then s == w.store[cfg.el := st.targetValues.value] else s == w.store
  {
  }

  /** Only a finishing tick of a plain `savePos` animation writes the store,
      and what it writes is the instance's current target. */
  lemma StoreWrittenOnlyWhenSaved(cfg: Config, st: AnimState, w: World, time: real, spring: real -> real)
    requires Ready(cfg, st)
    ensures var s := NextWorld(cfg, st, w, time, spring).store;
      s != w.store ==> CycleEnds(cfg, time) && st.cycles >= cfg.repeat && cfg.savePos
                       && cfg.keyframes.None? && s == w.store[cfg.el := st.targetValues.value]
  {
  }

  /** Continuity across calls: after a saved finish, a new animation of the
      same element starts from the saved target and offsets its own target
      from there. */
  lemma ContinuesFromSaved(cfg: Config, st: AnimState, w: World, time: real, spring: real -> real, o: Options)
    requires Ready(cfg, st) && CycleEnds(cfg, time) && st.cycles >= cfg.repeat
    requires cfg.savePos && cfg.keyframes.None? && o.keyframes.None?
    ensures var next := InitialState(NextWorld(cfg, st, w, time, spring).store, cfg.el, o);
      && next.startValues == st.targetValues.value
      && next.targetValues == Some(Targets(st.targetValues.value, o))
  {
  }

  /** Keyframe mode ignores the easing curve for what it writes. */
  lemma KeyframesIgnoreEase(cfg: Config, st: AnimState, w: World, time: real, spring: real -> real, otherEase: Curve)
    requires Ready(cfg, st) && cfg.keyframes.Some?
    ensures NextWorld(cfg.(ease := otherEase), st, w, time, spring) == NextWorld(cfg, st, w, time, spring)
  {
  }

  /** Plain mode past the delay gate: the element shows the blend of start
      and target at the eased progress, which is the start itself when the
      clock is at the start time and the target itself once a duration has
      passed (for every curve but `spring`); an opacity is written iff an
      `opacity` option is given, and it reaches that option at the end. No
      other element's style changes. */
  lemma PlainModeWrites(cfg: Config, st: AnimState, w: World, time: real, spring: real -> real)
    requires Ready(cfg, st) && cfg.keyframes.None? && time >= cfg.startTime
    ensures var r := NextWorld(cfg, st, w, time, spring);
      var e := Ease(cfg.ease, Progress(cfg, time), spring);
      && r.transforms == w.transforms[cfg.el := LerpTransform(st.startValues, st.targetValues.value, e)]
      && r.opacities == (if cfg.opacity.Some? then w.opacities[cfg.el := Num(Lerp(cfg.initialOpacity, cfg.opacity.value, e))]
                         else w.opacities)
      && (cfg.ease != Spring && time == cfg.startTime ==> r.transforms[cfg.el] == st.startValues)
      && (cfg.ease != Spring && cfg.duration > 0.0 && time >= cfg.startTime + cfg.duration ==>
            r.transforms[cfg.el] == st.targetValues.value)
      && (cfg.opacity.None? ==> r.opacities == w.opacities)
      && (cfg.opacity.Some? ==> cfg.el in r.opacities && r.opacities[cfg.el] == Num(Lerp(cfg.initialOpacity, cfg.opacity.value, e)))
      && (cfg.opacity.Some? && cfg.ease != Spring && cfg.duration > 0.0 && time >= cfg.startTime + cfg.duration ==>
            r.opacities[cfg.el] == Num(cfg.opacity.value))
  {
  }

  /** Keyframe mode past the delay gate: the element's style gets exactly
      the writes the segment loop leaves at the raw progress, no other
      element's style changes, and the store is untouched. */
  lemma KeyframeModeWrites(cfg: Config, st: AnimState, w: World, time: real, spring: real -> real)
    requires Ready(cfg, st) && cfg.keyframes.Some? && time >= cfg.startTime
    ensures var r := NextWorld(cfg, st, w, time, spring);
      var wr := KeyframeWrites(cfg.keyframes.value, Progress(cfg, time));
      && r.transforms == Put(w.transforms, cfg.el, wr.transform)
      && r.opacities == Put(w.opacities, cfg.el, wr.opacity)
      && r.store == w.store
  {
  }

  /** Every tick at or after the end of the first cycle has progress 1,
      because the captured start time is never reset. */
  predicate AllAfterEnd(cfg: Config, times: seq<real>)
  {
    forall k :: 0 <= k < |times| ==> times[k] >= cfg.startTime + cfg.duration
  }

  /** The restarts an instance still has before it can finish. */
  function RepeatsLeft(cfg: Config, st: AnimState): nat
  {
    if st.cycles < cfg.repeat then cfg.repeat - st.cycles else 0
  }

  /** Repeats are counted in ticks, not in durations: from the first tick
      that ends a cycle, the counter rises by one per tick, and the instance
      is done on exactly the tick after the last repeat. */
  lemma {:induction false} RepeatsCountTicks(cfg: Config, st: AnimState, times: seq<real>, now: real, spring: real -> real)
    requires Ready(cfg, st) && cfg.duration > 0.0 && !st.done
    requires AllAfterEnd(cfg, times)
    ensures var r := Run(cfg, st, times, now, spring);
      && (r.done <==> |times| > RepeatsLeft(cfg, st))
      && r.cycles == if |times| > RepeatsLeft(cfg, st) then st.cycles + RepeatsLeft(cfg, st) else st.cycles + |times|
    decreases |times|
  {
    if times != [] {
      CycleEndsAfterDuration(cfg, times[0]);
      var next := NextState(cfg, st, times[0], now, spring);
      if st.cycles < cfg.repeat {
        assert AllAfterEnd(cfg, times[1..]) by {
          forall k | 0 <= k < |times[1..]| ensures times[1..][k] >= cfg.startTime + cfg.duration {
            assert times[1..][k] == times[k + 1];
          }
        }
        RepeatsCountTicks(cfg, next, times[1..], now, spring);
      } else {
        assert next.done;
        assert Run(cfg, next, times[1..], now, spring) == next;
      }
    }
  }

  /** With yoyo in plain mode, each restart swaps start and target, so an
      even number of restarts restores the original pair. */
  lemma {:induction false} YoyoAlternates(cfg: Config, st: AnimState, times: seq<real>, now: real, spring: real -> real)
    requires Ready(cfg, st) && cfg.duration > 0.0 && !st.done
    requires cfg.yoyo && cfg.keyframes.None?
    requires AllAfterEnd(cfg, times) && |times| <= RepeatsLeft(cfg, st)
    ensures var r := Run(cfg, st, times, now, spring);
      if |times| % 2 == 0 then r.startValues == st.startValues && r.targetValues == st.targetValues
      else r.startValues == st.targetValues.value && r.targetValues == Some(st.startValues)
    decreases |times|
  {
    if times != [] {
      CycleEndsAfterDuration(cfg, times[0]);
      var next := NextState(cfg, st, times[0], now, spring);
      assert AllAfterEnd(cfg, times[1..]) by {
        forall k | 0 <= k < |times[1..]| ensures times[1..][k] >= cfg.startTime + cfg.duration {
          assert times[1..][k] == times[k + 1];
        }
      }
      YoyoAlternates(cfg, next, times[1..], now, spring);
    }
  }

  /** Without yoyo, or in keyframe mode, the start/target pair never moves. */
  lemma {:induction false} PairFixedWithoutYoyo(cfg: Config, st: AnimState, times: seq<real>, now: real, spring: real -> real)
    requires Ready(cfg, st) && !(cfg.yoyo && cfg.keyframes.None?)
    ensures var r := Run(cfg, st, times, now, spring);
      r.startValues == st.startValues && r.targetValues == st.targetValues
    decreases |times|
  {
    if times != [] && !st.done {
      PairFixedWithoutYoyo(cfg, NextState(cfg, st, times[0], now, spring), times[1..], now, spring);
    }
  }

  /** `onComplete` fires at most once, and exactly when the instance is done
      and has the callback. */
  lemma {:induction false} CompletesAtMostOnce(cfg: Config, st: AnimState, times: seq<real>, now: real, spring: real -> real)
    requires Ready(cfg, st) && !st.done && st.completions == 0
    ensures var r := Run(cfg, st, times, now, spring);
      r.completions <= 1 && (r.completions == 1 <==> r.done && cfg.onComplete)
    decreases |times|
  {
    if times != [] {
      var next := NextState(cfg, st, times[0], now, spring);
      if !next.done {
        CompletesAtMostOnce(cfg, next, times[1..], now, spring);
      }
    }
  }

  /** Before the start time, any number of ticks leave the instance as built:
      no `onUpdate` call, no cycle, not done. */
  lemma {:induction false} WaitingChangesNothing(cfg: Config, st: AnimState, times: seq<real>, now: real, spring: real -> real)
    requires Ready(cfg, st)
    requires forall k :: 0 <= k < |times| ==> times[k] < cfg.startTime
    ensures Run(cfg, st, times, now, spring) == st
    decreases |times|
  {
    if times != [] && !st.done {
      assert forall k :: 0 <= k < |times[1..]| ==> times[1..][k] == times[k + 1];
      WaitingChangesNothing(cfg, st, times[1..], now, spring);
    }
  }

  /** Ticks in sequence: running `a` and then `b` is running `a + b`. */
  lemma {:induction false} RunAppend(cfg: Config, st: AnimState, a: seq<real>, b: seq<real>, now: real, spring: real -> real)
    requires Ready(cfg, st)
    ensures Run(cfg, st, a + b, now, spring) == Run(cfg, Run(cfg, st, a, now, spring), b, now, spring)
    decreases |a|
  {
    if a == [] {
      assert a + b == b;
    } else if !st.done {
      assert (a + b)[0] == a[0] && (a + b)[1..] == a[1..] + b;
      RunAppend(cfg, NextState(cfg, st, a[0], now, spring), a[1..], b, now, spring);
    }
  }

  /** Before the end of the first cycle an instance only records its
      `onUpdate` calls: its counter, pair, restart stamp, `done` flag and
      completions stay as they were. */
  lemma {:induction false} BeforeFirstEnd(cfg: Config, st: AnimState, times: seq<real>, now: real, spring: real -> real)
    requires Ready(cfg, st) && cfg.duration > 0.0
    requires forall k :: 0 <= k < |times| ==> times[k] < cfg.startTime + cfg.duration
    ensures Run(cfg, st, times, now, spring) == st.(updates := Run(cfg, st, times, now, spring).updates)
    decreases |times|
  {
    if times != [] && !st.done {
      CycleEndsAfterDuration(cfg, times[0]);
      assert forall k :: 0 <= k < |times[1..]| ==> times[1..][k] == times[k + 1];
      BeforeFirstEnd(cfg, NextState(cfg, st, times[0], now, spring), times[1..], now, spring);
    }
  }

  /** An instance built by `animate` with a positive duration, ticked at
      any times before the end of its first cycle and then at times after
      it: it is done exactly on the tick after its `repeat` restarts, the
      counter has risen by one per tick until then, and with yoyo in plain
      mode the pair is swapped iff an odd number of restarts has happened. */
  lemma BuiltInstanceRepeats(store: map<Elem, Transform>, el: Elem, o: Options, built: real, op: real,
                             before: seq<real>, after: seq<real>, now: real, spring: real -> real)
    requires Animatable(o) && Duration(o) > 0.0
    requires var cfg := BuildConfig(el, o, built, op);
      forall k :: 0 <= k < |before| ==> before[k] < cfg.startTime + cfg.duration
    requires AllAfterEnd(BuildConfig(el, o, built, op), after)
    ensures var cfg := BuildConfig(el, o, built, op);
      var st := InitialState(store, el, o);
      var r := Run(cfg, st, before + after, now, spring);
      var n := if Default(o.repeat, 0) > 0 then Default(o.repeat, 0) else 0;
      && (r.done <==> |after| > n)
      && r.cycles == (if |after| > n then n else |after|)
      && (o.yoyo && o.keyframes.None? && |after| <= n ==>
            if |after| % 2 == 0 then r.startValues == st.startValues && r.targetValues == st.targetValues
            else r.startValues == st.targetValues.value && r.targetValues == Some(st.startValues))
  {
    var cfg := BuildConfig(el, o, built, op);
    var st := InitialState(store, el, o);
    var mid := Run(cfg, st, before, now, spring);
    RunAppend(cfg, st, before, after, now, spring);
    BeforeFirstEnd(cfg, st, before, now, spring);
    RepeatsCountTicks(cfg, mid, after, now, spring);
    if o.yoyo && o.keyframes.None? && |after| <= RepeatsLeft(cfg, mid) {
      YoyoAlternates(cfg, mid, after, now, spring);
    }
  }

  /** An instance as the scheduler finds it at the start of a tick. */
  datatype Snap = Snap(cfg: Config, st: AnimState)

  predicate AllReady(snaps: seq<Snap>)
  {
    forall k :: 0 <= k < |snaps| ==> Ready(snaps[k].cfg, snaps[k].st)
  }

  /** The state of each instance of `snaps` after one update. */
  function Advance(snaps: seq<Snap>, time: real, now: real, spring: real -> real): (r: seq<AnimState>)
    requires AllReady(snaps)
    ensures |r| == |snaps|
  {
    if snaps == [] then [] else [NextState(snaps[0].cfg, snaps[0].st, time, now, spring)] + Advance(snaps[1..], time, now, spring)
  }

  /** The world after one tick updates `snaps`: the tick walks the list from
      its end, so the last instance writes first and the first writes last. */
  function Pass(w: World, snaps: seq<Snap>, time: real, spring: real -> real): World
    requires AllReady(snaps)
  {
    if snaps == [] then w
    else NextWorld(snaps[0].cfg, snaps[0].st, Pass(w, snaps[1..], time, spring), time, spring)
  }

  /** The state of instance `k` after the tick depends only on its own
      snapshot. */
  lemma {:induction false} AdvanceAt(snaps: seq<Snap>, time: real, now: real, spring: real -> real, k: nat)
    requires AllReady(snaps) && k < |snaps|
    ensures Advance(snaps, time, now, spring)[k] == NextState(snaps[k].cfg, snaps[k].st, time, now, spring)
  {
    if k > 0 {
      AdvanceAt(snaps[1..], time, now, spring, k - 1);
    }
  }

  /** A tick in which every instance is still waiting for its start time
      writes nothing and saves nothing. */
  lemma {:induction false} PassWhileWaiting(w: World, snaps: seq<Snap>, time: real, spring: real -> real)
    requires AllReady(snaps)
    requires forall k :: 0 <= k < |snaps| ==> time < snaps[k].cfg.startTime
    ensures Pass(w, snaps, time, spring) == w
  {
    if snaps != [] {
      assert forall k :: 0 <= k < |snaps[1..]| ==> snaps[1..][k] == snaps[k + 1];
      PassWhileWaiting(w, snaps[1..], time, spring);
    }
  }

  /** Walking from the end, instance `i` writes on top of what instances
      `i + 1..` wrote. */
  lemma PassStep(w: World, snaps: seq<Snap>, time: real, spring: real -> real, i: nat)
    requires AllReady(snaps) && i < |snaps|
    ensures Pass(w, snaps[i..], time, spring) == NextWorld(snaps[i].cfg, snaps[i].st, Pass(w, snaps[i + 1..], time, spring), time, spring)
  {
    assert snaps[i..][1..] == snaps[i + 1..];
  }
}
