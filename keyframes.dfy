/**
 * Keyframe mode: the keys are sorted numerically and every pair of
 * consecutive keys whose interval holds the raw progress writes a linear
 * blend of its two frames, so the last such pair decides what is shown.
 */
module Keyframes {
  import opened Interp
  import opened Transforms

  /** One keyframe: any field may be missing. */
  datatype Frame = Frame(x: Option<real>, y: Option<real>, z: Option<real>, scale: Option<real>,
                         rotate: Option<real>, skewX: Option<real>, skewY: Option<real>,
                         opacity: Option<real>)

  /** A frame that gives no field. */
  const EmptyFrame: Frame := Frame(None, None, None, None, None, None, None, None)

  /** A keyframe set keyed by the numeric value of each key. */
  type Keyframes = map<real, Frame>

  /** What one pass over the segments leaves written: the last transform and
      the last opacity, if any segment wrote one. */
  datatype Writes = Writes(transform: Option<Transform>, opacity: Option<Num>)

  const NoWrites: Writes := Writes(None, None)

  predicate Increasing(s: seq<real>)
  {
    forall i, j :: 0 <= i < j < |s| ==> s[i] < s[j]
  }

  predicate IsLeast(s: set<real>, m: real)
  {
    m in s && forall y :: y in s ==> m <= y
  }

  lemma EmptyOrMember(s: set<real>)
    ensures s == {} || exists y :: y in s
  {
    if forall y :: y !in s {
      assert s == {};
    }
  }

  lemma LeastOfAdded(rest: set<real>, x: real, m: real)
    requires IsLeast(rest, m)
    ensures IsLeast(rest + {x}, if x < m then x else m)
  {
  }

  /** A finite non-empty set of numbers has a least element. */
  lemma {:induction false} LeastExists(s: set<real>)
    requires s != {}
    ensures exists m :: IsLeast(s, m)
  {
    EmptyOrMember(s);
    var x :| x in s;
    var rest := s - {x};
    if rest == {} {
      assert s == {x};
      assert IsLeast(s, x);
    } else {
      LeastExists(rest);
      var m :| IsLeast(rest, m);
      LeastOfAdded(rest, x, m);
      assert rest + {x} == s;
    }
  }

  /** The least element of a finite non-empty set of numbers. */
  function MinOf(s: set<real>): (m: real)
    requires s != {}
    ensures IsLeast(s, m)
  {
    LeastExists(s);
    var m :| IsLeast(s, m);
    m
  }

  /** `Object.keys(keyframes).map(parseFloat).sort((a, b) => a - b)`. */
  function SortedKeys(s: set<real>): (r: seq<real>)
    ensures Increasing(r)
    ensures |r| == |s|
    ensures forall k :: k in r <==> k in s
    decreases |s|
  {
    if s == {} then []
    else
      var m := MinOf(s);
      var rest := SortedKeys(s - {m});
      assert forall k :: k in rest ==> m < k;
      [m] + rest
  }

  /** The sorted keys of a keyframe set index it. */
  lemma SortedKeysOf(kf: Keyframes)
    ensures KeysOf(kf, SortedKeys(kf.Keys))
  {
    var keys := SortedKeys(kf.Keys);
    assert forall i :: 0 <= i < |keys| ==> keys[i] in keys;
  }

  /** What one tick writes is what the whole segment loop leaves. */
  lemma WritesAreScan(kf: Keyframes, p: real)
    ensures KeysOf(kf, SortedKeys(kf.Keys))
    ensures KeyframeWrites(kf, p) == Scan(kf, SortedKeys(kf.Keys), p, SegmentCount(SortedKeys(kf.Keys)))
  {
    SortedKeysOf(kf);
  }

  /** The number of segments between consecutive keys (the loop bound
      `frameKeys.length - 1`, which runs no iteration for an empty set). */
  function SegmentCount(keys: seq<real>): nat
  {
    if |keys| == 0 then 0 else |keys| - 1
  }

  /** `frame.f || d`: a missing field, or one that is 0, becomes `d`. */
  function FrameTransform(f: Frame): (r: Transform)
    ensures r.x == OrElse(f.x, 0.0) && r.y == OrElse(f.y, 0.0) && r.z == OrElse(f.z, 0.0)
    ensures r.rotate == OrElse(f.rotate, 0.0) && r.skewX == OrElse(f.skewX, 0.0) && r.skewY == OrElse(f.skewY, 0.0)
    ensures r.scale == OrElse(f.scale, 1.0)
    ensures f.(opacity := None) == EmptyFrame ==> r == Identity
  {
    Transform(OrElse(f.x, 0.0), OrElse(f.y, 0.0), OrElse(f.z, 0.0), OrElse(f.scale, 1.0),
              OrElse(f.rotate, 0.0), OrElse(f.skewX, 0.0), OrElse(f.skewY, 0.0))
  }

  /** The opacity a segment writes: nothing when its first frame has none;
      NaN when only the second frame lacks one (arithmetic on undefined). */
  function OpacityBlend(f0: Frame, f1: Frame, t: real): (r: Option<Num>)
    ensures r.None? <==> f0.opacity.None?
    ensures r == Some(NaN) <==> f0.opacity.Some? && f1.opacity.None?
    ensures f0.opacity.Some? && f1.opacity.Some? && t == 0.0 ==> r == Some(Num(f0.opacity.value))
    ensures f0.opacity.Some? && f1.opacity.Some? && t == 1.0 ==> r == Some(Num(f1.opacity.value))
  {
    if f0.opacity.None? then None
    else if f1.opacity.None? then Some(NaN)
    else Some(Num(Lerp(f0.opacity.value, f1.opacity.value, t)))
  }

  predicate Brackets(keys: seq<real>, p: real, i: nat)
    requires i + 1 < |keys|
  {
    keys[i] <= p <= keys[i + 1]
  }

  /** The local progress `(p - f0) / (f1 - f0)` inside segment `i`. */
  function LocalT(keys: seq<real>, p: real, i: nat): (t: real)
    requires Increasing(keys) && i + 1 < |keys|
    ensures Brackets(keys, p, i) ==> 0.0 <= t <= 1.0
    ensures p == keys[i] ==> t == 0.0
    ensures p == keys[i + 1] ==> t == 1.0
  {
    var d := keys[i + 1] - keys[i];
    assert d > 0.0;
    LocalTInUnit(p - keys[i], d);
    (p - keys[i]) / d
  }

  lemma LocalTInUnit(n: real, d: real)
    requires d > 0.0
    ensures 0.0 <= n <= d ==> 0.0 <= n / d <= 1.0
    ensures n == d ==> n / d == 1.0
  {
  }

  predicate KeysOf(kf: Keyframes, keys: seq<real>)
  {
    Increasing(keys) && forall i :: 0 <= i < |keys| ==> keys[i] in kf
  }

  /** The transform segment `i` writes when it holds `p`. */
  function SegmentTransform(kf: Keyframes, keys: seq<real>, p: real, i: nat): Transform
    requires KeysOf(kf, keys) && i + 1 < |keys|
  {
    LerpTransform(FrameTransform(kf[keys[i]]), FrameTransform(kf[keys[i + 1]]), LocalT(keys, p, i))
  }

  /** One iteration of the segment loop, on what the earlier ones wrote. */
  function Segment(kf: Keyframes, keys: seq<real>, p: real, i: nat, w: Writes): (r: Writes)
    requires KeysOf(kf, keys) && i + 1 < |keys|
    ensures !Brackets(keys, p, i) ==> r == w
    ensures Brackets(keys, p, i) ==> r.transform == Some(SegmentTransform(kf, keys, p, i))
    ensures kf[keys[i]].opacity.None? ==> r.opacity == w.opacity
  {
    if Brackets(keys, p, i) then
      var o := OpacityBlend(kf[keys[i]], kf[keys[i + 1]], LocalT(keys, p, i));
      Writes(Some(SegmentTransform(kf, keys, p, i)), if o.Some? then o else w.opacity)
    else w
  }

  /** The writes of the first `n` iterations of the segment loop. */
  function Scan(kf: Keyframes, keys: seq<real>, p: real, n: nat): (r: Writes)
    requires KeysOf(kf, keys) && n <= SegmentCount(keys)
  {
    if n == 0 then NoWrites else Segment(kf, keys, p, n - 1, Scan(kf, keys, p, n - 1))
  }

  /** One more iteration of the segment loop, in the terms of its body: a
      segment not holding `p` writes nothing, and one holding it writes its
      blended transform and, when its first frame has an opacity, its
      blended opacity. */
  lemma ScanStep(kf: Keyframes, keys: seq<real>, p: real, i: nat)
    requires KeysOf(kf, keys) && i < SegmentCount(keys)
    ensures !Brackets(keys, p, i) ==> Scan(kf, keys, p, i + 1) == Scan(kf, keys, p, i)
    ensures Brackets(keys, p, i) ==>
      var f0, f1 := kf[keys[i]], kf[keys[i + 1]];
      var t := (p - keys[i]) / (keys[i + 1] - keys[i]);
      && Scan(kf, keys, p, i + 1).transform == Some(LerpTransform(FrameTransform(f0), FrameTransform(f1), t))
      && Scan(kf, keys, p, i + 1).opacity ==
           if f0.opacity.None? then Scan(kf, keys, p, i).opacity
           else if f1.opacity.None? then Some(NaN)
           else Some(Num(Lerp(f0.opacity.value, f1.opacity.value, t)))
  {
  }

  /** Everything one tick of keyframe mode writes at raw progress `p`. */
  function KeyframeWrites(kf: Keyframes, p: real): (r: Writes)
    ensures r.opacity.Some? ==> r.transform.Some?
  {
    var keys := SortedKeys(kf.Keys);
    SortedKeysOf(kf);
    OpacityOnlyWithTransform(kf, keys, p, SegmentCount(keys));
    Scan(kf, keys, p, SegmentCount(keys))
  }

  /** An opacity is only ever written together with a transform: the loop
      never leaves an opacity without the transform of the same segment. */
  lemma {:induction false} OpacityOnlyWithTransform(kf: Keyframes, keys: seq<real>, p: real, n: nat)
    requires KeysOf(kf, keys) && n <= SegmentCount(keys)
    ensures Scan(kf, keys, p, n).opacity.Some? ==> Scan(kf, keys, p, n).transform.Some?
  {
    if n > 0 {
      OpacityOnlyWithTransform(kf, keys, p, n - 1);
    }
  }

  /** The loop writes a transform iff some segment holds `p`, and then the
      one it shows is that of the last segment holding `p`. */
  lemma {:induction false} ScanLastWins(kf: Keyframes, keys: seq<real>, p: real, n: nat)
    requires KeysOf(kf, keys) && n <= SegmentCount(keys)
    ensures Scan(kf, keys, p, n).transform.None? <==> forall j :: 0 <= j < n ==> !Brackets(keys, p, j)
    ensures forall j :: 0 <= j < n && Brackets(keys, p, j) && (forall k :: j < k < n ==> !Brackets(keys, p, k)) ==>
              Scan(kf, keys, p, n).transform == Some(SegmentTransform(kf, keys, p, j))
  {
    if n > 0 {
      ScanLastWins(kf, keys, p, n - 1);
    }
  }

  /** When no segment holding `p` has an opacity in its first frame, the
      loop writes no opacity. */
  lemma {:induction false} ScanOpacityNone(kf: Keyframes, keys: seq<real>, p: real, n: nat)
    requires KeysOf(kf, keys) && n <= SegmentCount(keys)
    requires forall j :: 0 <= j < n && Brackets(keys, p, j) ==> kf[keys[j]].opacity.None?
    ensures Scan(kf, keys, p, n).opacity.None?
  {
    if n > 0 {
      ScanOpacityNone(kf, keys, p, n - 1);
    }
  }

  /** Otherwise the opacity shown is that of the last segment holding `p`
      whose first frame has an opacity. */
  lemma {:induction false} ScanOpacityLastWins(kf: Keyframes, keys: seq<real>, p: real, n: nat, j: nat)
    requires KeysOf(kf, keys) && n <= SegmentCount(keys)
    requires j < n && Brackets(keys, p, j) && kf[keys[j]].opacity.Some?
    requires forall k :: j < k < n && Brackets(keys, p, k) ==> kf[keys[k]].opacity.None?
    ensures Scan(kf, keys, p, n).opacity == OpacityBlend(kf[keys[j]], kf[keys[j + 1]], LocalT(keys, p, j))
  {
    if j < n - 1 {
      ScanOpacityLastWins(kf, keys, p, n - 1, j);
    }
  }

  /** With fewer than two keys there is no segment: nothing is ever written. */
  lemma TooFewKeysWriteNothing(kf: Keyframes, p: real)
    requires |kf| < 2
    ensures KeyframeWrites(kf, p) == NoWrites
  {
    assert |kf.Keys| == |kf|;
  }

  /** At a key strictly between the first and the last, both adjacent
      segments hold the progress; the later one is the last to write, and
      what it shows is that key's own frame. */
  lemma InteriorKey(kf: Keyframes, keys: seq<real>, j: nat)
    requires KeysOf(kf, keys) && 0 < j < |keys| - 1
    ensures Brackets(keys, keys[j], j - 1) && Brackets(keys, keys[j], j)
    ensures forall k :: j < k < |keys| - 1 ==> !Brackets(keys, keys[j], k)
    ensures Scan(kf, keys, keys[j], SegmentCount(keys)).transform == Some(FrameTransform(kf[keys[j]]))
  {
    var p := keys[j];
    assert forall k :: j < k < |keys| - 1 ==> !Brackets(keys, p, k);
    assert LocalT(keys, p, j) == 0.0;
    assert SegmentTransform(kf, keys, p, j) == FrameTransform(kf[keys[j]]);
    ScanLastWins(kf, keys, p, SegmentCount(keys));
  }

  /** At key `j` of at least two keys, the loop shows that key's frame:
      the segment starting there holds it at local progress 0 and no later
      one holds it, and at the last key the final segment holds it at local
      progress 1. */
  lemma KeyShowsFrame(kf: Keyframes, keys: seq<real>, j: nat)
    requires KeysOf(kf, keys) && 2 <= |keys| && j < |keys|
    ensures Scan(kf, keys, keys[j], SegmentCount(keys)).transform == Some(FrameTransform(kf[keys[j]]))
  {
    var p := keys[j];
    ScanLastWins(kf, keys, p, SegmentCount(keys));
    if j < |keys| - 1 {
      assert Brackets(keys, p, j);
      assert forall k :: j < k < |keys| - 1 ==> !Brackets(keys, p, k);
      assert SegmentTransform(kf, keys, p, j) == FrameTransform(kf[keys[j]]);
    } else {
      assert Brackets(keys, p, j - 1);
      assert SegmentTransform(kf, keys, p, j - 1) == FrameTransform(kf[keys[j]]);
    }
  }

  /** Whenever there are segments, the transform shown at any key is that
      key's own frame with its defaults filled in. */
  lemma AtKeyShowsFrame(kf: Keyframes, p: real)
    requires |kf| >= 2 && p in kf
    ensures KeyframeWrites(kf, p).transform == Some(FrameTransform(kf[p]))
  {
    var keys := SortedKeys(kf.Keys);
    assert |kf.Keys| == |kf|;
    SortedKeysOf(kf);
    var j :| 0 <= j < |keys| && keys[j] == p;
    KeyShowsFrame(kf, keys, j);
  }

  /** A progress outside the span of the keys shows nothing. */
  lemma OutsideKeysWritesNothing(kf: Keyframes, p: real)
    requires (forall k :: k in kf ==> p < k) || (forall k :: k in kf ==> k < p)
    ensures KeyframeWrites(kf, p).transform.None?
  {
    var keys := SortedKeys(kf.Keys);
    ScanLastWins(kf, keys, p, SegmentCount(keys));
  }
}
