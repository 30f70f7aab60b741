/**
 * The animation engine's mutable state: the style records of the page, the
 * animation instances, and the scheduler that owns the list of running
 * instances, the `running` flag and the position store.
 */
module Engine {
  import opened Interp
  import opened Transforms
  import opened Keyframes
  import opened Instance
  import opened Stagger

  /** The style of the page as far as the engine writes it: the last
      transform and the last opacity written to each element. */
  class Page {
    var transforms: map<Elem, Transform>
    var opacities: map<Elem, Num>

    constructor ()
      ensures transforms == map[] && opacities == map[]
    {
      transforms := map[];
      opacities := map[];
    }

    /** The keyframe branch of `update`: a loop over the numerically sorted
        keys in which every segment holding `progress` writes its blend. */
    method ApplyKeyframes(el: Elem, kf: Keyframes, progress: real)
      modifies this
      ensures transforms == Put(old(transforms), el, KeyframeWrites(kf, progress).transform)
      ensures opacities == Put(old(opacities), el, KeyframeWrites(kf, progress).opacity)
    {
      var frameKeys := SortedKeys(kf.Keys);
      WritesAreScan(kf, progress);
      ScanSegments(el, kf, frameKeys, progress);
    }

    /** The segment loop over sorted keys `frameKeys`. */
    method ScanSegments(el: Elem, kf: Keyframes, frameKeys: seq<real>, progress: real)
      requires KeysOf(kf, frameKeys)
      modifies this
      ensures transforms == Put(old(transforms), el, Scan(kf, frameKeys, progress, SegmentCount(frameKeys)).transform)
      ensures opacities == Put(old(opacities), el, Scan(kf, frameKeys, progress, SegmentCount(frameKeys)).opacity)
    {
      var i := 0;
      while i < |frameKeys| - 1
        invariant 0 <= i <= SegmentCount(frameKeys)
        invariant transforms == Put(old(transforms), el, Scan(kf, frameKeys, progress, i).transform)
        invariant opacities == Put(old(opacities), el, Scan(kf, frameKeys, progress, i).opacity)
      {
        WriteSegment(el, kf, frameKeys, progress, i, old(transforms), old(opacities));
        i := i + 1;
      }
    }

    /** One iteration of the segment loop: segment `i` writes its blend when
        it holds `progress`, over what the earlier iterations wrote since the
        style was `t0` and `o0`. */
    method WriteSegment(el: Elem, kf: Keyframes, frameKeys: seq<real>, progress: real, i: nat,
                        ghost t0: map<Elem, Transform>, ghost o0: map<Elem, Num>)
      requires KeysOf(kf, frameKeys) && i < SegmentCount(frameKeys)
      requires transforms == Put(t0, el, Scan(kf, frameKeys, progress, i).transform)
      requires opacities == Put(o0, el, Scan(kf, frameKeys, progress, i).opacity)
      modifies this
      ensures transforms == Put(t0, el, Scan(kf, frameKeys, progress, i + 1).transform)
      ensures opacities == Put(o0, el, Scan(kf, frameKeys, progress, i + 1).opacity)
    {
      ghost var before := Scan(kf, frameKeys, progress, i);
      ScanStep(kf, frameKeys, progress, i);
      var f0, f1 := frameKeys[i], frameKeys[i + 1];
      if progress >= f0 && progress <= f1 {
        var localT := (progress - f0) / (f1 - f0);
        var frame0, frame1 := kf[f0], kf[f1];
        var shown := LerpTransform(FrameTransform(frame0), FrameTransform(frame1), localT);
        PutAgain(t0, el, before.transform, Some(shown));
        transforms := transforms[el := shown];
        if frame0.opacity.Some? {
          var blend := if frame1.opacity.Some? then Num(Lerp(frame0.opacity.value, frame1.opacity.value, localT)) else NaN;
          PutAgain(o0, el, before.opacity, Some(blend));
          opacities := opacities[el := blend];
        }
      }
    }

    /** The style writes of one update past the delay gate. */
    method Draw(cfg: Config, st: AnimState, progress: real, eased: real)
      requires Ready(cfg, st)
      modifies this
      ensures var w := Render(cfg, st, World(map[], old(transforms), old(opacities)), progress, eased);
        transforms == w.transforms && opacities == w.opacities
    {
      if cfg.keyframes.Some? {
        ApplyKeyframes(cfg.el, cfg.keyframes.value, progress);
      } else {
        var current := LerpTransform(st.startValues, st.targetValues.value, eased);
        transforms := transforms[cfg.el := current];
        if cfg.opacity.Some? {
          opacities := opacities[cfg.el := Num(Lerp(cfg.initialOpacity, cfg.opacity.value, eased))];
        }
      }
    }
  }

  /** One animation instance: the constants and variables of the closure
      that `animate` builds for one element, and the `done` flag and
      `startTime` property of the object the scheduler holds. */
  class Animation {
    const cfg: Config
    var startValues: Transform
    var targetValues: Option<Transform>
    var cycles: nat
    var done: bool
    var stamp: Option<real>
    var updates: seq<real>
    var completions: nat

    function State(): AnimState
      reads this
    {
      AnimState(startValues, targetValues, cycles, done, stamp, updates, completions)
    }

    ghost predicate Valid()
      reads this
    {
      Ready(cfg, State())
    }

    /** Not finished, and `onComplete` never called. */
    predicate Idle()
      reads this
    {
      !done && completions == 0
    }

    constructor (cfg: Config, st: AnimState)
      requires Ready(cfg, st)
      ensures this.cfg == cfg && State() == st && Valid()
    {
      this.cfg := cfg;
      startValues, targetValues, cycles, done := st.startValues, st.targetValues, st.cycles, st.done;
      stamp, updates, completions := st.stamp, st.updates, st.completions;
    }

    /** `update(time)`. */
    method Update(time: real, now: real, engine: Engine)
      requires Valid()
      modifies this, engine`positionStore, engine.page
      ensures Valid()
      ensures State() == NextState(cfg, old(State()), time, now, engine.spring)
      ensures engine.Effects() == NextWorld(cfg, old(State()), old(engine.Effects()), time, engine.spring)
    {
      if time < cfg.startTime {
        return;
      }
      ghost var st0, w0 := State(), engine.Effects();
      var progress := Clamp((time - cfg.startTime) / cfg.duration);
      var eased := Ease(cfg.ease, progress, engine.spring);
      engine.page.Draw(cfg, State(), progress, eased);
      assert engine.Effects() == Render(cfg, st0, w0, progress, eased);
      if cfg.onUpdate {
        updates := updates + [eased];
      }
      CheckComplete(progress, now, engine);
    }

    /** The `// Check complete` block of `update`. */
    method CheckComplete(progress: real, now: real, engine: Engine)
      requires Valid()
      modifies this, engine`positionStore
      ensures State() == Settle(cfg, old(State()), progress, now)
      ensures engine.positionStore == SaveStore(cfg, old(State()), old(engine.positionStore), progress)
    {
      if progress >= 1.0 {
        if cycles < cfg.repeat {
          cycles := cycles + 1;
          if cfg.yoyo {
            if cfg.keyframes.Some? {
              // keyframe yoyo is not implemented: nothing is swapped
            } else {
              startValues, targetValues := targetValues.value, Some(startValues);
            }
          }
          // `this.startTime` is written, but the closure reads its own constant
          stamp := Some(now);
          return;
        }
        if cfg.savePos && cfg.keyframes.None? {
          engine.positionStore := engine.positionStore[cfg.el := targetValues.value];
        }
        done := true;
        if cfg.onComplete {
          completions := completions + 1;
        }
      }
    }
  }

  predicate Distinct(s: seq<Animation>)
  {
    forall i, j :: 0 <= i < j < |s| ==> s[i] != s[j]
  }

  /** The instances of `s` that are not done, in their order. */
  function Keep(s: seq<Animation>): seq<Animation>
    reads s
  {
    if s == [] then [] else (if s[0].done then [] else [s[0]]) + Keep(s[1..])
  }

  /** The list never grows by the splices, and keeps its length exactly
      when no listed instance is done. */
  lemma {:induction false} KeepShrinks(s: seq<Animation>)
    ensures |Keep(s)| <= |s|
    ensures |Keep(s)| == |s| <==> forall k :: 0 <= k < |s| ==> !s[k].done
  {
    if s != [] {
      KeepShrinks(s[1..]);
      assert forall k :: 0 < k < |s| ==> s[k] == s[1..][k - 1];
    }
  }

  /** What the tick keeps is exactly the unfinished instances. */
  lemma {:induction false} KeepExactlyUnfinished(s: seq<Animation>)
    ensures forall a :: a in Keep(s) <==> a in s && !a.done
  {
    if s != [] {
      KeepExactlyUnfinished(s[1..]);
      assert s == [s[0]] + s[1..];
    }
  }

  /** The instances of `s` whose state in `st` is not done, in their order. */
  function Survivors(s: seq<Animation>, st: seq<AnimState>): seq<Animation>
    requires |s| == |st|
  {
    if s == [] then [] else (if st[0].done then [] else [s[0]]) + Survivors(s[1..], st[1..])
  }

  lemma {:induction false} SurvivorIndex(s: seq<Animation>, st: seq<AnimState>, a: Animation) returns (k: nat)
    requires |s| == |st| && a in Survivors(s, st)
    ensures k < |s| && s[k] == a && !st[k].done
  {
    if !st[0].done && a == s[0] {
      k := 0;
    } else {
      var j := SurvivorIndex(s[1..], st[1..], a);
      k := j + 1;
    }
  }

  /** The current states of the instances of `s`. */
  function States(s: seq<Animation>): (r: seq<AnimState>)
    reads s
    ensures |r| == |s|
  {
    if s == [] then [] else [s[0].State()] + States(s[1..])
  }

  /** Instances whose states are those of `st`, element by element. */
  lemma {:induction false} StatesAre(s: seq<Animation>, st: seq<AnimState>)
    requires |s| == |st| && forall k :: 0 <= k < |s| ==> s[k].State() == st[k]
    ensures States(s) == st
  {
    if s != [] {
      StatesAre(s[1..], st[1..]);
    }
  }

  /** `Keep` on a heap where the states are those of `st`. */
  lemma {:induction false} KeepIsSurvivors(s: seq<Animation>, st: seq<AnimState>)
    requires States(s) == st
    ensures Keep(s) == Survivors(s, st)
  {
    if s != [] {
      KeepIsSurvivors(s[1..], st[1..]);
    }
  }

  /** Visiting index `i`: the instance there survives iff its new state is
      not done. */
  lemma SurvivorsStep(s: seq<Animation>, st: seq<AnimState>, i: nat)
    requires i < |s| == |st|
    ensures Survivors(s[i..], st[i..]) == (if st[i].done then [] else [s[i]]) + Survivors(s[i + 1..], st[i + 1..])
  {
    assert s[i..][1..] == s[i + 1..] && st[i..][1..] == st[i + 1..];
  }

  /** Every instance of `s` is consistent and has neither finished nor
      completed. */
  ghost predicate AllIdle(s: seq<Animation>)
    reads s
  {
    forall k :: 0 <= k < |s| ==> s[k].Valid() && s[k].Idle()
  }

  lemma AllIdleAppend(s: seq<Animation>, t: seq<Animation>)
    requires AllIdle(s) && AllIdle(t)
    ensures AllIdle(s + t)
  {
    forall k | 0 <= k < |s + t| ensures (s + t)[k].Valid() && (s + t)[k].Idle() {
      if k >= |s| {
        assert (s + t)[k] == t[k - |s|];
      }
    }
  }

  /** The element at `i` of a list free of repeats occurs nowhere else. */
  lemma DistinctAt(s: seq<Animation>, i: nat)
    requires Distinct(s) && i < |s|
    ensures forall j :: 0 <= j < |s| && j != i ==> s[j] != s[i]
  {
  }

  /** The instances the callbacks add during one tick: the tick visits
      index `n - 1` first, so `spawn[n - 1]` is appended first. */
  function Spawned(spawn: seq<seq<Animation>>): seq<Animation>
  {
    if spawn == [] then [] else Spawned(spawn[1..]) + spawn[0]
  }

  /** The added instances exist before the tick that adds them. */
  lemma {:induction false} SpawnedAllocated(spawn: seq<seq<Animation>>)
    ensures forall k :: 0 <= k < |Spawned(spawn)| ==> allocated(Spawned(spawn)[k])
  {
    if spawn != [] {
      SpawnedAllocated(spawn[1..]);
      var r := Spawned(spawn[1..]);
      assert forall k :: 0 <= k < |spawn[0]| ==> (r + spawn[0])[|r| + k] == spawn[0][k];
    }
  }

  /** Visiting index `i` appends the instances added by the callbacks of
      instance `i`. */
  lemma SpawnedStep(spawn: seq<seq<Animation>>, i: nat)
    requires i < |spawn|
    ensures Spawned(spawn[i..]) == Spawned(spawn[i + 1..]) + spawn[i]
  {
    assert spawn[i..][1..] == spawn[i + 1..];
  }

  /** The instances of `s` with their closure constants and state. */
  function Snapshots(s: seq<Animation>): (r: seq<Snap>)
    reads s
    ensures |r| == |s|
  {
    if s == [] then [] else [Snap(s[0].cfg, s[0].State())] + Snapshots(s[1..])
  }

  lemma {:induction false} SnapshotsIndex(s: seq<Animation>)
    ensures forall k :: 0 <= k < |s| ==> Snapshots(s)[k] == Snap(s[k].cfg, s[k].State())
  {
    if s != [] {
      SnapshotsIndex(s[1..]);
    }
  }

  /** The snapshots of consistent, idle instances are ready and have not
      completed. */
  lemma SnapshotsIdle(s: seq<Animation>)
    requires AllIdle(s)
    ensures AllReady(Snapshots(s))
    ensures forall k :: 0 <= k < |s| ==> Snapshots(s)[k].st.completions == 0
  {
    SnapshotsIndex(s);
  }

  lemma DistinctCons(x: Animation, r: seq<Animation>)
    requires Distinct(r) && x !in r
    ensures Distinct([x] + r)
  {
    forall i, j | 0 <= i < j < |[x] + r| ensures ([x] + r)[i] != ([x] + r)[j] {
      assert ([x] + r)[j] == r[j - 1];
      if i > 0 {
        assert ([x] + r)[i] == r[i - 1];
      }
    }
  }

  /** Dropping instances keeps a list free of repeats, and free of the
      instances appended after it. */
  lemma {:induction false} SurvivorsDistinct(s: seq<Animation>, st: seq<AnimState>, t: seq<Animation>)
    requires |s| == |st| && Distinct(s + t)
    ensures Distinct(Survivors(s, st) + t)
    decreases |s|
  {
    DistinctSplit(s, t);
    if s == [] {
      assert s + t == t;
    } else {
      assert s + t == [s[0]] + (s[1..] + t);
      assert Distinct(s[1..] + t) by {
        forall i, j | 0 <= i < j < |s[1..] + t| ensures (s[1..] + t)[i] != (s[1..] + t)[j] {
          assert (s[1..] + t)[i] == (s + t)[i + 1] && (s[1..] + t)[j] == (s + t)[j + 1];
        }
      }
      SurvivorsDistinct(s[1..], st[1..], t);
      var rest := Survivors(s[1..], st[1..]);
      if !st[0].done {
        assert Survivors(s, st) + t == [s[0]] + (rest + t);
        if s[0] in rest {
          var k := SurvivorIndex(s[1..], st[1..], s[0]);
          assert false;
        }
        assert s[0] !in t;
        DistinctCons(s[0], rest + t);
      } else {
        assert Survivors(s, st) == rest;
      }
    }
  }

  /** The loop of the tick starts with every index untouched and ends with
      every index visited. */
  lemma WholeRange(all: seq<Animation>, snaps: seq<Snap>, next: seq<AnimState>, spawn: seq<seq<Animation>>)
    requires |all| == |next|
    ensures all[..|all|] == all && snaps[0..] == snaps
    ensures all[..0] + Survivors(all[0..], next[0..]) + Spawned(spawn[0..]) == Survivors(all, next) + Spawned(spawn)
  {
    assert all[0..] == all && next[0..] == next && spawn[0..] == spawn;
  }

  /** The list after visiting `x` at index `|p|`: the callbacks' instances
      `e` are appended, and `x` is spliced out iff it is done (`d`). */
  lemma ListStep(p: seq<Animation>, x: Animation, k: seq<Animation>, s: seq<Animation>, e: seq<Animation>, d: bool)
    ensures var l := p + [x] + k + s + e;
            (if d then l[..|p|] + l[|p| + 1..] else l) == p + ((if d then [] else [x]) + k) + (s + e)
  {
    var l := p + [x] + k + s + e;
    assert l[..|p|] == p;
    assert l[|p| + 1..] == k + s + e;
  }

  lemma DistinctSplit(s: seq<Animation>, t: seq<Animation>)
    requires Distinct(s + t)
    ensures Distinct(s) && Distinct(t)
    ensures forall a :: a in s ==> a !in t
  {
    assert forall i :: 0 <= i < |s| ==> (s + t)[i] == s[i];
    assert forall i :: 0 <= i < |t| ==> (s + t)[|s| + i] == t[i];
  }

  /** The instances of `s` that survive `st` are consistent and idle when
      every unfinished state is consistent and has not completed. */
  lemma {:induction false} SurvivorsIdle(s: seq<Animation>, st: seq<AnimState>)
    requires |s| == |st|
    requires forall j :: 0 <= j < |s| && !st[j].done ==> s[j].Valid() && s[j].State() == st[j] && st[j].completions == 0
    ensures AllIdle(Survivors(s, st))
  {
    if s != [] {
      SurvivorsIdle(s[1..], st[1..]);
      AllIdleAppend(if st[0].done then [] else [s[0]], Survivors(s[1..], st[1..]));
    }
  }

  /** What the tick's loop leaves, read off once it has visited every
      instance: the states are those of `Advance`, the list is `Keep` of the
      old list followed by the added instances, and that list is again free
      of repeats and made of idle instances. */
  lemma TickOutcome(all: seq<Animation>, snaps: seq<Snap>, next: seq<AnimState>, spawn: seq<seq<Animation>>,
                    time: real, now: real, spring: real -> real)
    requires |all| == |snaps| == |spawn| && AllReady(snaps) && next == Advance(snaps, time, now, spring)
    requires forall j :: 0 <= j < |all| ==> all[j].State() == next[j] && all[j].cfg == snaps[j].cfg
    requires forall j :: 0 <= j < |all| ==> snaps[j].st.completions == 0
    requires Distinct(all + Spawned(spawn)) && AllIdle(Spawned(spawn))
    ensures States(all) == next && Keep(all) == Survivors(all, next)
    ensures Distinct(Survivors(all, next) + Spawned(spawn)) && AllIdle(Survivors(all, next) + Spawned(spawn))
  {
    StatesAre(all, next);
    KeepIsSurvivors(all, next);
    SurvivorsDistinct(all, next, Spawned(spawn));
    forall j | 0 <= j < |all| && !next[j].done
      ensures all[j].Valid() && all[j].State() == next[j] && next[j].completions == 0
    {
      AdvanceAt(snaps, time, now, spring, j);
    }
    SurvivorsIdle(all, next);
    AllIdleAppend(Survivors(all, next), Spawned(spawn));
  }

  /** Appending to the tail of a list appends to the list. */
  lemma Regroup(s: seq<Animation>, t: seq<Animation>, u: seq<Animation>)
    ensures s + t + u == s + (t + u)
  {
  }

  /** The scheduler: the list of running instances, whether a frame is
      pending, and the store of saved positions. `pendingFrames` counts the
      frame callbacks requested and not yet run. */
  class Engine {
    var animations: seq<Animation>
    var running: bool
    var pendingFrames: nat
    var positionStore: map<Elem, Transform>
    const page: Page
    const spring: real -> real

    function Effects(): World
      reads this, page
    {
      World(positionStore, page.transforms, page.opacities)
    }

    /** Every listed instance is distinct, consistent and unfinished; the
        loop runs exactly while there is something to animate; and at most
        one frame callback is ever outstanding. */
    ghost predicate Valid()
      reads this, animations
    {
      && Distinct(animations)
      && AllIdle(animations)
      && (running <==> animations != [])
      && pendingFrames == (if running then 1 else 0)
    }

    constructor (spring: real -> real)
      ensures Valid() && fresh(page)
      ensures animations == [] && !running && positionStore == map[]
      ensures page.transforms == map[] && page.opacities == map[] && this.spring == spring
    {
      animations := [];
      running := false;
      pendingFrames := 0;
      positionStore := map[];
      page := new Page();
      this.spring := spring;
    }

    /** `addAnimation`: append, and request a frame only if the loop is not
        already running. */
    method AddAnimation(a: Animation)
      modifies this`animations, this`running, this`pendingFrames
      ensures animations == old(animations) + [a] && running
      ensures pendingFrames == if old(running) then old(pendingFrames) else old(pendingFrames) + 1
    {
      animations := animations + [a];
      if !running {
        running := true;
        pendingFrames := pendingFrames + 1;
      }
    }

    /** The `addAnimation` calls that callbacks make during one update. */
    method AddAll(list: seq<Animation>)
      modifies this`animations, this`running, this`pendingFrames
      ensures animations == old(animations) + list
      ensures running == (old(running) || list != [])
      ensures pendingFrames == if old(running) || list == [] then old(pendingFrames) else old(pendingFrames) + 1
    {
      var k := 0;
      while k < |list|
        invariant 0 <= k <= |list|
        invariant animations == old(animations) + list[..k]
        invariant running == (old(running) || k > 0)
        invariant pendingFrames == if old(running) || k == 0 then old(pendingFrames) else old(pendingFrames) + 1
      {
        AddAnimation(list[k]);
        k := k + 1;
      }
      assert list[..k] == list;
    }

    /** `tick(time)`, the frame callback. `spawn[i]` holds the instances that
        the callbacks of instance `i` add while it updates. Every instance
        present at the start is updated exactly once, from the last to the
        first; the finished ones leave the list, the others keep their order
        and the added ones follow; and the loop re-arms iff anything remains. */
    method Tick(time: real, now: real, spawn: seq<seq<Animation>>)
      requires Valid() && running
      requires |spawn| == |animations|
      requires Distinct(animations + Spawned(spawn)) && AllIdle(Spawned(spawn))
      requires AllReady(Snapshots(animations))
      modifies this, page, animations
      ensures Valid()
      ensures animations == Keep(old(animations)) + Spawned(spawn)
      ensures States(old(animations)) == Advance(old(Snapshots(animations)), time, now, spring)
      ensures Effects() == Pass(old(Effects()), old(Snapshots(animations)), time, spring)
    {
      ghost var all := animations;
      ghost var snaps := Snapshots(animations);
      SnapshotsIdle(all);
      SnapshotsIndex(all);
      DistinctSplit(all, Spawned(spawn));
      SpawnedAllocated(spawn);
      pendingFrames := pendingFrames - 1;
      Sweep(time, now, spawn, all, snaps, Advance(snaps, time, now, spring));
      if |animations| > 0 {
        pendingFrames := pendingFrames + 1;
      } else {
        running := false;
      }
      TickOutcome(all, snaps, Advance(snaps, time, now, spring), spawn, time, now, spring);
    }

    /** The loop of `tick`: visit every index from the last to the first. */
    method Sweep(time: real, now: real, spawn: seq<seq<Animation>>, ghost all: seq<Animation>,
                 ghost snaps: seq<Snap>, ghost next: seq<AnimState>)
      requires |all| == |snaps| == |spawn| && AllReady(snaps) && next == Advance(snaps, time, now, spring)
      requires animations == all && running && pendingFrames == 0
      requires forall j :: 0 <= j < |all| ==> all[j].State() == snaps[j].st && all[j].cfg == snaps[j].cfg
      requires Distinct(all) && forall a :: a in all ==> a !in Spawned(spawn)
      requires AllIdle(Spawned(spawn)) && forall k :: 0 <= k < |Spawned(spawn)| ==> allocated(Spawned(spawn)[k])
      modifies this, page, all
      ensures animations == Survivors(all, next) + Spawned(spawn) && running && pendingFrames == 0
      ensures forall j :: 0 <= j < |all| ==> all[j].State() == next[j]
      ensures AllIdle(Spawned(spawn))
      ensures Effects() == Pass(old(Effects()), snaps, time, spring)
    {
      WholeRange(all, snaps, next, spawn);
      var i := |animations| - 1;
      while i >= 0
        invariant Swept(i, time, now, spawn, all, snaps, next, old(Effects()))
        invariant forall k :: 0 <= k < |Spawned(spawn)| ==> allocated(Spawned(spawn)[k])
        decreases i
      {
        Visit(i, time, now, spawn, all, snaps, next, old(Effects()));
        i := i - 1;
      }
    }

    /** The state of the tick's loop before it visits index `i`: the indices
        above `i` are updated, and spliced out if done, with their callbacks'
        instances appended; the indices up to `i` are untouched. */
    ghost predicate Swept(i: int, time: real, now: real, spawn: seq<seq<Animation>>, all: seq<Animation>,
                          snaps: seq<Snap>, next: seq<AnimState>, w0: World)
      reads this, page, all, Spawned(spawn)
    {
      && -1 <= i < |all| == |snaps| == |next| == |spawn|
      && AllReady(snaps) && next == Advance(snaps, time, now, spring)
      && animations == all[..i + 1] + Survivors(all[i + 1..], next[i + 1..]) + Spawned(spawn[i + 1..])
      && running && pendingFrames == 0
      && (forall j :: 0 <= j < |all| ==> all[j].cfg == snaps[j].cfg)
      && (forall j :: 0 <= j <= i ==> all[j].State() == snaps[j].st)
      && (forall j :: i < j < |all| ==> all[j].State() == next[j])
      && AllIdle(Spawned(spawn))
      && Effects() == Pass(w0, snaps[i + 1..], time, spring)
    }

    /** One turn of the tick's loop, with what it keeps of the states of
        the other instances. */
    method Visit(i: int, time: real, now: real, spawn: seq<seq<Animation>>, ghost all: seq<Animation>,
                 ghost snaps: seq<Snap>, ghost next: seq<AnimState>, ghost w0: World)
      requires 0 <= i && Swept(i, time, now, spawn, all, snaps, next, w0)
      requires Distinct(all) && forall a :: a in all ==> a !in Spawned(spawn)
      requires forall k :: 0 <= k < |Spawned(spawn)| ==> allocated(Spawned(spawn)[k])
      modifies this, page, all[i]
      ensures Swept(i - 1, time, now, spawn, all, snaps, next, w0)
    {
      DistinctAt(all, i);
      assert all[i] !in Spawned(spawn);
      UpdateAt(i, time, now, spawn, all, snaps, next, w0);
    }

    /** Update instance `i`, append what its callbacks added, and splice it
        out if it is done. */
    method UpdateAt(i: nat, time: real, now: real, spawn: seq<seq<Animation>>, ghost all: seq<Animation>,
                 ghost snaps: seq<Snap>, ghost next: seq<AnimState>, ghost w0: World)
      requires i < |all| == |snaps| == |spawn| && AllReady(snaps) && next == Advance(snaps, time, now, spring)
      requires animations == all[..i + 1] + Survivors(all[i + 1..], next[i + 1..]) + Spawned(spawn[i + 1..])
      requires running && pendingFrames == 0
      requires all[i].State() == snaps[i].st && all[i].cfg == snaps[i].cfg
      requires Effects() == Pass(w0, snaps[i + 1..], time, spring)
      modifies this, page, all[i]
      ensures animations == all[..i] + Survivors(all[i..], next[i..]) + Spawned(spawn[i..])
      ensures running && pendingFrames == 0
      ensures all[i].State() == next[i]
      ensures Effects() == Pass(w0, snaps[i..], time, spring)
    {
      var anim := animations[i];
      ghost var kept := Survivors(all[i + 1..], next[i + 1..]);
      ghost var later := Spawned(spawn[i + 1..]);
      assert all[..i + 1] == all[..i] + [anim];
      AdvanceAt(snaps, time, now, spring, i);
      PassStep(w0, snaps, time, spring, i);
      SurvivorsStep(all, next, i);
      SpawnedStep(spawn, i);
      ListStep(all[..i], anim, kept, later, spawn[i], next[i].done);
      anim.Update(time, now, this);
      Requeue(i, spawn[i], anim.done);
    }

    /** After the update of the instance at `i`: the `addAnimation` calls of
        its callbacks, then `animations.splice(i, 1)` if it is done. */
    method Requeue(i: nat, list: seq<Animation>, drop: bool)
      requires i < |animations| && running
      modifies this`animations, this`running, this`pendingFrames
      ensures var l := old(animations) + list;
              animations == if drop then l[..i] + l[i + 1..] else l
      ensures running && pendingFrames == old(pendingFrames)
    {
      AddAll(list);
      if drop {
        animations := animations[..i] + animations[i + 1..];
      }
    }

    /** The `animate` builder for one element at clock `now`: the instance
        captures the base transform from the store and its targets, and is
        handed to `addAnimation`. */
    method AnimateOne(el: Elem, o: Options, now: real, computedOpacity: real) returns (a: Animation)
      requires Valid() && Animatable(o)
      modifies this`animations, this`running, this`pendingFrames
      ensures fresh(a) && a.cfg == BuildConfig(el, o, now, computedOpacity)
      ensures a.State() == InitialState(positionStore, el, o)
      ensures animations == old(animations) + [a] && Valid()
      ensures pendingFrames == if old(running) then old(pendingFrames) else old(pendingFrames) + 1
    {
      var base := BaseTransform(positionStore, el);
      var targetValues: Option<Transform> := None;
      if o.keyframes.None? {
        targetValues := Some(Targets(base, o));
      }
      var cfg := BuildConfig(el, o, now, computedOpacity);
      a := new Animation(cfg, AnimState(base, targetValues, 0, false, None, [], 0));
      AddAnimation(a);
    }

    /** `animate(target, options)` over the elements the target selects, in
        document order, with one clock sample `now`. */
    method Animate(els: seq<Elem>, o: Options, now: real, computedOpacity: Elem -> real) returns (created: seq<Animation>)
      requires Valid() && Animatable(o)
      modifies this`animations, this`running, this`pendingFrames
      ensures Valid() && animations == old(animations) + created && |created| == |els|
      ensures forall a :: a in created ==> fresh(a)
      ensures forall k :: 0 <= k < |els| ==>
                created[k].cfg == BuildConfig(els[k], o, now, computedOpacity(els[k]))
                && created[k].State() == InitialState(positionStore, els[k], o)
      ensures running == (old(running) || els != [])
    {
      created := [];
      var k := 0;
      while k < |els|
        invariant 0 <= k <= |els| && |created| == k
        invariant Valid() && animations == old(animations) + created
        invariant forall a :: a in created ==> fresh(a)
        invariant forall j :: 0 <= j < k ==>
                    created[j].cfg == BuildConfig(els[j], o, now, computedOpacity(els[j]))
                    && created[j].State() == InitialState(positionStore, els[j], o)
        invariant running == (old(running) || k > 0)
      {
        var a := AnimateOne(els[k], o, now, computedOpacity(els[k]));
        Regroup(old(animations), created, [a]);
        created := created + [a];
        k := k + 1;
      }
    }

    /** `stagger(selector, options, config)`: element `i` is animated with
        the options it was given and the delay of its rank. */
    method Stagger(els: seq<Elem>, o: Options, each: Option<real>, now: real, computedOpacity: Elem -> real)
      returns (created: seq<Animation>)
      requires Valid() && Animatable(o)
      modifies this`animations, this`running, this`pendingFrames
      ensures Valid() && animations == old(animations) + created && |created| == |els|
      ensures forall a :: a in created ==> fresh(a)
      ensures forall k :: 0 <= k < |els| ==>
                created[k].cfg == BuildConfig(els[k], StaggerOptions(o, each, k), now, computedOpacity(els[k]))
                && created[k].State() == InitialState(positionStore, els[k], StaggerOptions(o, each, k))
    {
      created := [];
      var k := 0;
      while k < |els|
        invariant 0 <= k <= |els| && |created| == k
        invariant Valid() && animations == old(animations) + created
        invariant forall a :: a in created ==> fresh(a)
        invariant forall j :: 0 <= j < k ==>
                    created[j].cfg == BuildConfig(els[j], StaggerOptions(o, each, j), now, computedOpacity(els[j]))
                    && created[j].State() == InitialState(positionStore, els[j], StaggerOptions(o, each, j))
      {
        var a := AnimateOne(els[k], StaggerOptions(o, each, k), now, computedOpacity(els[k]));
        Regroup(old(animations), created, [a]);
        created := created + [a];
        k := k + 1;
      }
    }
  }
}
