# Animora animation engine — a Dafny model

Animora (`dist/animora.js`) is a small browser animation helper. Its engine
is single-threaded and sequential:

- `animate(target, options)` builds one animation instance per element.
- The scheduler (`tick` and `addAnimation`) keeps the running instances in
  a list. On every frame it calls `update(time)` on each of them, walking
  the list from its end, and splices out the instances that finished.
- `stagger` and `timeline` call `animate` with computed delays.

This project models that engine over exact reals and proves what it promises.

Modules:

- `Interp` (`interp.dfy`): `lerp`, `clamp` and the easing table. An easing
  name resolves to a `Curve`; a name the table lacks gives the identity.
- `Transforms` (`transforms.dfy`): the seven-field transform, its blend,
  and `getBaseTransform` over the position store. The store is a
  `map<Elem, Transform>`, and elements are opaque identities.
- `Keyframes` (`keyframes.dfy`): keyframe mode.
  - The keys are sorted numerically.
  - Every consecutive pair of keys whose interval holds the raw progress
    writes a blend. The last such pair wins.
  - `Scan` is the loop as a function of its iteration count.
- `Instance` (`instance.dfy`): one instance as pure functions of its
  closure state.
  - `BuildConfig` and `InitialState` describe what `animate` captures.
  - `NextState` and `NextWorld` describe what one `update(time)` does to
    the instance and to the store and style records.
  - `Run` follows one instance over a sequence of ticks.
  - The lemmas cover:
    - the delay gate;
    - completion on raw progress;
    - repeats and yoyo;
    - `savePos`;
    - `onComplete` firing at most once.
- `Stagger` (`stagger.dfy`): the per-element delay of `stagger`.
- `Engine` (`engine.dfy`): the mutable state, written imperatively.
  - `Page` holds the last transform and opacity written to each element.
    Its methods are the keyframe segment loop and the plain-mode writes.
  - `Animation` is the object the scheduler holds: the closure's
    variables, `done`, and the `startTime` property.
  - `Engine` holds:
    - the `animations` list;
    - `running`;
    - a count of requested frame callbacks;
    - the position store.

    Its `Tick`, `Animate` and `Stagger` are proved against the functions of
    `Instance`. The contract of `AddAnimation` states the new list and the
    frame request directly.
- `Timeline` (`timeline.dfy`): the `timeline()` builder as a class with
  `steps` and `totalDelay`. `Play` is proved to make exactly the `animate`
  calls that `Plan` lists.

Two behaviours of the code are reproduced as written:

- A restart writes `this.startTime` (`dist/animora.js:173`), but `update`
  reads the closure constant captured at line 92. The clock therefore never
  restarts, and every tick after the first end of a cycle again has
  progress 1.
  - `Animation.stamp` records the dead write.
  - `Instance.RepeatsCountTicks` proves that an instance finishes exactly
    `repeat` ticks after it first reaches progress 1, and
    `Instance.BuiltInstanceRepeats` proves it for an instance as `animate`
    builds it, whatever ticks it saw before its first end.
- A `to` step reads `totalDelay` when `play()` runs, not when the step was
  recorded (line 201). Every `to` step therefore plays with the final total.
  `Timeline.Plan` and `Timeline.PlayStartsTogether` state this.

Two kinds of default coexist in the code:

- `config.each || 100` (line 191), `options.duration || 1000` (line 201),
  `options.delay || 0` (line 193), the keyframe fields `frame.f || 0` and
  the keyframe scale `frame.scale || 1` (lines 113-119) use `||`. An
  explicit 0 is falsy there, so it also takes the default (`Interp.OrElse`, `Stagger.Step`, `Timeline.StepDuration`,
  `Keyframes.FrameTransform`).
- The destructuring defaults of `animate` (lines 63-68) apply only to
  `undefined`, so a `duration` or `delay` of 0 passed to `animate` stays 0
  (`Interp.Default`, `Instance.BuildConfig`).

## Model

| member | source | states |
|---|---|---|
| `Interp.Lerp` | dist/animora.js:10 | the blend is exactly `a` at t = 0 and exactly `b` at t = 1 |
| `Interp.Default` | dist/animora.js:63-68 | a destructuring default: a given value, 0 included, is kept and only a missing one takes the default |
| `Interp.OrElse` | dist/animora.js:191-201 | the or-default of a number: a given non-zero value is kept, and a missing or zero one becomes the default |
| `Interp.LerpBetween` | dist/animora.js:10 | for t in [0,1] the blend lies between its two end points, in either order |
| `Interp.Clamp` | dist/animora.js:11 | the result is always in [0,1], is the identity on [0,1], and is 0 below and 1 above |
| `Interp.CurveNamed` | dist/animora.js:14-19 | a name selects no curve iff it is not one of the four table keys, and each of `linear`, `easeOutCubic`, `easeInOut` and `spring` selects exactly its own entry |
| `Interp.Ease` | dist/animora.js:14-19 | no entry and `linear` are the identity; `spring` is the supplied curve; every other curve fixes 0 and 1 |
| `Interp.EaseStaysInUnit` | dist/animora.js:15-17 | the polynomial curves map [0,1] into [0,1] (only `spring` may overshoot) |
| `Transforms.LerpTransform` | dist/animora.js:127-135 | the field-by-field blend is the start at 0 and the target at 1 |
| `Transforms.BaseTransform` | dist/animora.js:52 | the stored transform of an element when there is one, else the identity |
| `Keyframes.SortedKeys` | dist/animora.js:105 | the keys in strictly increasing order, each key once and nothing else |
| `Keyframes.FrameTransform` | dist/animora.js:113-119 | each of x, y, z, rotate, skewX and skewY is the frame's field or 0 when missing or zero; scale is the field or 1 when missing or zero; a frame without transform fields gives the identity |
| `Keyframes.LocalT` | dist/animora.js:109 | local progress is in [0,1] inside its segment, 0 at the segment's first key and 1 at its second |
| `Keyframes.OpacityBlend` | dist/animora.js:122 | a segment writes an opacity iff its first frame has one; NaN iff only the second lacks one; otherwise the blend, equal to the first frame's at 0 and the second's at 1 |
| `Keyframes.Segment` | dist/animora.js:107-123 | a segment not holding the progress changes nothing; one holding it writes its blended transform, and keeps the earlier opacity when its first frame has none |
| `Keyframes.OpacityOnlyWithTransform` | dist/animora.js:106-124 | the loop never leaves an opacity written without a transform |
| `Keyframes.KeyframeWrites` | dist/animora.js:105-124 | the keyframe branch writes an opacity only together with a transform |
| `Keyframes.ScanStep` | dist/animora.js:107-123 | one loop iteration: a segment not holding the progress writes nothing; one holding it writes the blended frames at `(p-f0)/(f1-f0)`, and an opacity only when its first frame has one (NaN if the second lacks it) |
| `Keyframes.ScanLastWins` | dist/animora.js:106-120 | a transform is written iff some segment holds the progress, and then it is the last such segment's blend |
| `Keyframes.ScanOpacityNone` | dist/animora.js:122 | no opacity is written when no holding segment's first frame has one |
| `Keyframes.ScanOpacityLastWins` | dist/animora.js:122 | otherwise the opacity shown is that of the last holding segment whose first frame has one |
| `Keyframes.TooFewKeysWriteNothing` | dist/animora.js:106 | with fewer than two keys the loop writes nothing at all |
| `Keyframes.InteriorKey` | dist/animora.js:106-124 | at an interior key both adjacent segments hold the progress, no later one does, and the frame shown is that key's own |
| `Keyframes.KeyShowsFrame` | dist/animora.js:106-124 | with at least two sorted keys, progress equal to any key shows that key's frame with its defaults |
| `Keyframes.AtKeyShowsFrame` | dist/animora.js:105-124 | the same for the keyframe set itself, keys sorted as the source sorts them |
| `Keyframes.OutsideKeysWritesNothing` | dist/animora.js:108 | a progress below the first or above the last key writes no transform |
| `Instance.Targets` | dist/animora.js:76-85 | each of x, y, z, rotate, skewX and skewY is the base plus its option (0 if absent), scale is the base times its option (1 if absent), and no options give the base |
| `Instance.BuildConfig` | dist/animora.js:63-92 | the element, keyframes, opacity option, yoyo, savePos and both callbacks are kept, and the computed opacity is captured; the start time is the clock sample plus the delay (the sample itself without one); the duration is the given one or 1000; the ease is the table entry of the given name or `easeOutCubic`; the repeat is the given one or 0 |
| `Instance.InitialState` | dist/animora.js:70-93 | the start is a copy of `getBaseTransform(el)`; there is a target iff no keyframes are given, and it is `Targets` of the base; cycles 0, not done, no callbacks yet |
| `Instance.Progress` | dist/animora.js:100 | progress is in [0,1], 0 at the start time, and with a positive duration it is 1 iff a full duration has passed |
| `Instance.Settle` | dist/animora.js:155-181 | progress below 1 leaves the instance exactly as it was; the completion check never touches the `onUpdate` record, keeps the instance consistent, and calls `onComplete` only when it sets `done` |
| `Instance.NextState` | dist/animora.js:97-181 | an update before `startTime` changes nothing; after it the instance stays consistent, and `onComplete` is counted only on the update that finishes it |
| `Instance.OnUpdateGetsEased` | dist/animora.js:101-153 | every update past the gate calls `onUpdate`, when present, once with the eased progress |
| `Instance.MidCycleTick` | dist/animora.js:153-156 | an update past the gate that ends no cycle only records the `onUpdate` call: counter, pair, `done` and completions unchanged, store not written |
| `Instance.SaveStore` | dist/animora.js:177 | the store changes only at a final end of a cycle of a plain `savePos` animation, and then the element's entry becomes the current target |
| `Instance.Render` | dist/animora.js:104-151 | the style writes of an update never touch the position store (what they write is stated by `PlainModeWrites` and `KeyframeModeWrites`) |
| `Instance.NextWorld` | dist/animora.js:98 | before `startTime` an update writes no style and leaves the store alone |
| `Instance.PlainModeWrites` | dist/animora.js:127-140 | in plain mode past the gate the element shows the blend of start and target at the eased progress: the start itself at the start time and the target itself once a duration has passed (every curve but `spring`); an opacity is written iff an `opacity` option is given, and it reaches that option at the end; no other element's transform or opacity changes |
| `Instance.KeyframeModeWrites` | dist/animora.js:104-124 | in keyframe mode past the gate the element's style gets exactly the writes the segment loop leaves at the raw progress, no other element's style changes, and the store is untouched |
| `Instance.CycleEndsAfterDuration` | dist/animora.js:100 | with a positive duration a tick ends a cycle iff at least one duration has passed since the captured start |
| `Instance.CompletionOnRawProgress` | dist/animora.js:156-179 | an update finishes the instance iff a full duration has passed and no repeat is left, and the result is the same under any easing curve |
| `Instance.NegativeDurationNeverEnds` | dist/animora.js:100 | with a negative duration progress is 0 at every tick past the gate: no cycle ever ends, no repeat is counted, and the instance never finishes |
| `Instance.RestartingTick` | dist/animora.js:153-174 | at the end of a cycle with repeats left: cycles rises by exactly 1, `done` unchanged, no `onComplete`, `onUpdate` called with the eased progress, store unchanged, and start/target are swapped iff yoyo is set in plain mode |
| `Instance.FinishingTick` | dist/animora.js:153-180 | at the final end of a cycle: done, `onComplete` called once if present, `onUpdate` called with the eased progress, and the target saved for the element iff `savePos` in plain mode |
| `Instance.StoreWrittenOnlyWhenSaved` | dist/animora.js:177 | an update changes the store only on a final end of a plain `savePos` animation, and then it writes the current target |
| `Instance.ContinuesFromSaved` | dist/animora.js:177 | after a saved finish, a new plain animation of the element starts from the saved target and offsets its target from it |
| `Instance.KeyframesIgnoreEase` | dist/animora.js:104-124 | in keyframe mode the easing curve has no effect on what an update writes |
| `Instance.RepeatsCountTicks` | dist/animora.js:157-174 | once every tick is past the first end, the counter rises one per tick and the instance is done exactly on the tick after its last repeat |
| `Instance.BuiltInstanceRepeats` | dist/animora.js:61-180 | an instance built by `animate` with a positive duration, ticked before the end of its first cycle and then after it, is done exactly on the tick after its `repeat` restarts, its counter rises one per tick until then, and with yoyo in plain mode its pair is swapped iff the number of restarts is odd |
| `Instance.YoyoAlternates` | dist/animora.js:159-171 | with yoyo in plain mode, an even number of restarts restores the original pair and an odd number swaps it |
| `Instance.PairFixedWithoutYoyo` | dist/animora.js:159-171 | without yoyo, or in keyframe mode, start and target never change |
| `Instance.CompletesAtMostOnce` | dist/animora.js:179-180 | over the ticks an instance sees until it is removed, `onComplete` fires at most once, and exactly when it finished and has the callback |
| `Instance.WaitingChangesNothing` | dist/animora.js:98 | any number of ticks before `startTime` leave the instance exactly as built |
| `Instance.BeforeFirstEnd` | dist/animora.js:98-156 | ticks before the end of the first cycle change nothing but the `onUpdate` record |
| `Instance.RunAppend` | dist/animora.js:21-29 | running one sequence of ticks and then another is running their concatenation |
| `Instance.Run` | dist/animora.js:21-29 | following an instance through its ticks keeps it consistent, leaves a done instance as it is, and never lowers its cycle or completion counts |
| `Instance.Advance` | dist/animora.js:22-24 | one tick gives one new state per listed instance |
| `Instance.AdvanceAt` | dist/animora.js:22-24 | the new state of instance `k` is `NextState` of its own snapshot |
| `Instance.PassStep` | dist/animora.js:22-24 | walking from the end, instance `i` writes on top of what instances after it wrote |
| `Instance.PassWhileWaiting` | dist/animora.js:98 | a tick in which every instance is still before its start time leaves the store and the style records unchanged |
| `Stagger.StaggerOptions` | dist/animora.js:193 | element `i` gets the caller's options with only the delay replaced, by `StaggerDelay` |
| `Stagger.Step` | dist/animora.js:191 | the step is never 0: a given non-zero `each` is kept, and a missing or zero one is 100 |
| `Stagger.StaggerDelay` | dist/animora.js:193 | element 0 gets the caller's delay (0 when missing or zero), and with a positive step no element starts earlier |
| `Stagger.StaggerSpacing` | dist/animora.js:191-193 | the first element gets the caller's delay (0 when missing or zero), each next one exactly `each` later, and a missing or zero `each` is 100 |
| `Stagger.StaggerIncreasing` | dist/animora.js:193 | a positive step gives strictly increasing delays in selection order |
| `Engine.Page.ApplyKeyframes` | dist/animora.js:104-124 | the keyframe branch leaves exactly the writes `KeyframeWrites` describes on the element, and nothing on any other |
| `Engine.Page.ScanSegments` | dist/animora.js:106-124 | the segment loop over sorted keys leaves exactly the writes of `Scan` over all its segments |
| `Engine.Page.WriteSegment` | dist/animora.js:107-123 | one iteration moves the style from what `Scan` gives for `i` segments to what it gives for `i + 1` |
| `Engine.Page.Draw` | dist/animora.js:104-151 | the style writes of an update past the gate are those of `Render` |
| `Engine.Animation.Update` | dist/animora.js:97-182 | `update(time)` moves the instance to `NextState` and the store and style to `NextWorld`, and keeps the instance consistent |
| `Engine.Animation.CheckComplete` | dist/animora.js:155-181 | the completion block moves the instance to `Settle` and writes the store as `SaveStore` says |
| `Engine.KeepExactlyUnfinished` | dist/animora.js:25 | the instances kept by the splice loop are exactly the listed ones that are not done |
| `Engine.KeepShrinks` | dist/animora.js:25 | the splice loop never lengthens the list, and keeps its length iff no listed instance is done |
| `Engine.Engine.constructor` | dist/animora.js:5-7 | the engine starts with an empty list, not running, an empty store and an untouched page |
| `Engine.Engine.AddAnimation` | dist/animora.js:31-37 | appends the instance and sets `running`; a frame is requested iff the loop was not running |
| `Engine.Engine.AddAll` | dist/animora.js:31-37 | a sequence of `addAnimation` calls appends them in order and requests at most one frame |
| `Engine.Engine.Tick` | dist/animora.js:21-29 | every instance present at the start is updated once, by `NextState`; the list becomes the unfinished ones in their order followed by those added during the tick; the world is `Pass` of the updates from last to first; and the loop re-arms iff anything remains |
| `Engine.Engine.Sweep` | dist/animora.js:22-26 | the reverse loop leaves the survivors plus the added instances, every old instance advanced, and the world of `Pass` |
| `Engine.Engine.Visit` | dist/animora.js:23-25 | one iteration extends the loop's progress from index `i` to `i - 1` |
| `Engine.Engine.UpdateAt` | dist/animora.js:23-25 | updating index `i` and splicing it out when done leaves the list, state and world the loop has reached |
| `Engine.Engine.Requeue` | dist/animora.js:25 | the instances added during the update are appended, and index `i` is spliced out iff the instance is done |
| `Engine.Engine.AnimateOne` | dist/animora.js:61-95 | builds one instance with `BuildConfig` and `InitialState`, appends it, and requests a frame only if the loop was idle |
| `Engine.Engine.Animate` | dist/animora.js:58-187 | one new instance per element, in order, each built from the same options and the same store, appended to the list; the loop runs afterwards iff it ran before or some element was given |
| `Engine.Engine.Stagger` | dist/animora.js:189-195 | one new instance per element, in order, element `i` built with `StaggerOptions` for `i` |
| `Timeline.Played` | dist/animora.js:201 | a played step has the recorded options with only the delay replaced by the total, so its duration is unchanged |
| `Timeline.StepDuration` | dist/animora.js:201 | a step's duration is never 0: a given non-zero duration is kept, and a missing or zero one is 1000 |
| `Timeline.Plan` | dist/animora.js:201-211 | every `animate` call of a play has the same delay, the final total |
| `Timeline.PlanStep` | dist/animora.js:211 | running step `k` extends the `animate` calls and the callback calls of the steps before it by exactly that step's own |
| `Timeline.PlanSource` | dist/animora.js:201-211 | every `animate` call of a play comes from a `to` step: an element its selector selects, with that step's options |
| `Timeline.SumGrows` | dist/animora.js:201 | with positive step durations, the final total exceeds the total at the time any `to` step was recorded |
| `Timeline.ScaleOnly` | dist/animora.js:205 | the `from` write is the identity transform with only the scale set |
| `Timeline.FromTransformsAt` | dist/animora.js:204-205 | `from` sets the given scale on every selected element and leaves every other element's transform as it was |
| `Timeline.FromOpacitiesAt` | dist/animora.js:204-206 | `from` sets the given opacity on every selected element and leaves every other element's opacity as it was |
| `Timeline.Timeline.constructor` | dist/animora.js:198-199 | no steps and a total of 0 |
| `Timeline.Timeline.To` | dist/animora.js:201 | records the step and advances the total by the step's duration (1000 when missing or zero), keeping the total equal to the sum of the recorded durations |
| `Timeline.Timeline.Add` | dist/animora.js:210 | records the callback with its offset (0 when absent) and leaves the total unchanged |
| `Timeline.Timeline.From` | dist/animora.js:202-209 | writes the selected elements' scale and opacity at once, then does exactly what `To` does |
| `Timeline.Timeline.PlayStep` | dist/animora.js:211 | running step `k` extends the instances created and the callbacks called to those of the first `k + 1` steps |
| `Timeline.Timeline.Play` | dist/animora.js:201-211 | the instances appended are exactly those of `Plan`, in step order, each with the constants `animate` captures and with its start and target taken from the position store; the callbacks are called in insertion order with their offsets |
| `Timeline.PlayTo` | dist/animora.js:201 | one `to` step appends one instance per selected element, built from the played options, with its start and target taken from the position store |
| `Timeline.PlayStartsTogether` | dist/animora.js:201-211 | every instance a play creates has the same delay, the final total: it starts that total after the clock sample of its call |

## Left out

- DOM access is not modelled. Style strings, `querySelectorAll` and
  `getComputedStyle` are replaced by per-element records of the last
  transform and opacity written. Selection is a parameter `select`, and the
  computed opacity is a parameter `computedOpacity`.
- The style records hold the values the code assigns, not what the page
  shows. A keyframe segment whose second frame lacks an opacity assigns NaN
  (`Keyframes.OpacityBlend`); a browser rejects that value and keeps the
  previous opacity, which the model does not capture.
- Colour animation (`parseColor`, `lerpColor`, `backgroundColor`, `color`)
  is not modelled: it depends entirely on how the browser parses colours.
- `scrollTrigger` and `showRaster` are not modelled: they are event wiring
  and a cosmetic overlay.
- `requestAnimationFrame` and `performance.now` are foreign timing
  primitives. Frames are explicit `Tick(time)` calls, and a frame request
  is a counter, `pendingFrames`. The clock is a parameter `now`.
- The source samples `performance.now()` once per element (line 92, inside
  the `forEach` of line 61). The model takes one sample `now` per
  `animate`, `stagger` or `play` call, so the instances of one call share
  it; a clock that advances between elements is not modelled.
- Floating point is not modelled: arithmetic is over exact reals. The
  `spring` curve is an uninterpreted function given to the engine, because
  its cosine and exponential are outside exact real arithmetic.
- The easing curve is looked up when the instance is built, not on every
  update. This is equivalent, because the easing table is a constant.
- Names inherited from `Object.prototype` are not modelled as easing names
  (for example `easings["toString"]` would be truthy). Any name outside the
  four table keys gives the identity.
- A duration of 0 is excluded by precondition (`Instance.Animatable`). It
  divides by zero and gives Infinity or NaN.
- Keyframe keys are modelled as their numeric values. Two keys that parse
  to the same number, and key strings that are not in canonical number
  form, are not modelled: the source's lookup `keyframes[f0]` would miss
  them.
- `repeat` is an integer; a fractional `repeat` is not modelled.
- The position store is a plain map. Its weak-reference garbage collection
  is unobservable to the engine.
- Callbacks are reduced to their calls:
  - `onUpdate` calls are recorded as the sequence of their arguments;
  - `onComplete` calls are counted;
  - the timeline's `add` callbacks are recorded with their offsets, not run;
  - exceptions thrown by callbacks are not modelled.
- Engine.Engine.Tick takes the instances that callbacks add during the tick
  as a parameter, `spawn`. `spawn[i]` holds what instance `i`'s callbacks
  create. They must be fresh, distinct and not yet updated. The arbitrary
  code of a callback is not modelled.
- Engine.Engine.Tick requires `AllReady(Snapshots(animations))`. This is
  the consistency of every listed instance, and `Valid` already implies it.
- Timeline.Timeline.From takes the selected elements directly, rather than
  resolving the selector itself.
- The transform string of `from` (`scale(s)`) is recorded as a transform
  whose fields other than scale take their neutral values.
