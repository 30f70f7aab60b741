/**
 * Interpolators and easing curves of the animation engine, over exact reals.
 * JavaScript's `undefined` is `None`; `NaN` only arises where an undefined
 * keyframe opacity is blended, and is kept apart as `Num.NaN`.
 */
module Interp {

  datatype Option<T> = None | Some(value: T)

  /** A number written to a style property: a real, or the NaN that
      arithmetic on `undefined` yields. */
  datatype Num = Num(v: real) | NaN

  /** Destructuring default `{ f = d } = options`: only an undefined value takes `d`. */
  function Default<T>(v: Option<T>, d: T): (r: T)
    ensures v.Some? ==> r == v.value
    ensures v.None? ==> r == d
  {
    if v.Some? then v.value else d
  }

  /** `v || d` on a number: undefined and 0 are both falsy and give `d`. */
  function OrElse(v: Option<real>, d: real): (r: real)
    ensures v.Some? && v.value != 0.0 ==> r == v.value
    ensures v.None? || v.value == 0.0 ==> r == d
  {
    if v.Some? && v.value != 0.0 then v.value else d
  }

  /** `lerp(a, b, t)`: unclamped linear blend, exact at both ends. */
  function Lerp(a: real, b: real, t: real): (r: real)
    ensures t == 0.0 ==> r == a
    ensures t == 1.0 ==> r == b
  {
    a + (b - a) * t
  }

  lemma ScaledInRange(d: real, t: real)
    requires 0.0 <= d && 0.0 <= t <= 1.0
    ensures 0.0 <= d * t
    ensures d * t <= d
  {
    assert d * (1.0 - t) >= 0.0;
  }

  lemma LerpUp(a: real, b: real, t: real)
    requires a <= b && 0.0 <= t <= 1.0
    ensures a <= Lerp(a, b, t) <= b
  {
    var d := b - a;
    ScaledInRange(d, t);
    var dt := d * t;
    assert Lerp(a, b, t) == a + dt;
  }

  /** For t in [0,1] the blend lies between its two end points. */
  lemma LerpBetween(a: real, b: real, t: real)
    requires 0.0 <= t <= 1.0
    ensures a <= b ==> a <= Lerp(a, b, t) <= b
    ensures b <= a ==> b <= Lerp(a, b, t) <= a
  {
    if a <= b {
      LerpUp(a, b, t);
    } else {
      LerpUp(-a, -b, t);
      assert Lerp(-a, -b, t) == -Lerp(a, b, t) by {
        assert (-b - -a) * t == -((b - a) * t);
      }
    }
  }

  /** `clamp(t) = max(0, min(1, t))`. */
  function Clamp(t: real): (r: real)
    ensures 0.0 <= r <= 1.0
    ensures 0.0 <= t <= 1.0 ==> r == t
    ensures t < 0.0 ==> r == 0.0
    ensures t > 1.0 ==> r == 1.0
  {
    var m := if t < 1.0 then t else 1.0;
    if m > 0.0 then m else 0.0
  }

  function Cube(u: real): real { u * u * u }

  /** The four named curves of the easing table. */
  predicate IsNamedEasing(name: string)
  {
    name == "linear" || name == "easeOutCubic" || name == "easeInOut" || name == "spring"
  }

  /** An entry of the easing table, or `NoCurve` for a name it lacks.
      `Spring` is the decorative cosine/exponential curve, supplied from
      outside as a function. */
  datatype Curve = Linear | EaseOutCubic | EaseInOut | Spring | NoCurve

  /** `easings[ease]`: the table entry a name selects. */
  function CurveNamed(name: string): (c: Curve)
    ensures c == NoCurve <==> !IsNamedEasing(name)
    ensures c == Spring <==> name == "spring"
    ensures c == Linear <==> name == "linear"
    ensures c == EaseOutCubic <==> name == "easeOutCubic"
    ensures c == EaseInOut <==> name == "easeInOut"
  {
    if name == "linear" then Linear
    else if name == "easeOutCubic" then EaseOutCubic
    else if name == "easeInOut" then EaseInOut
    else if name == "spring" then Spring
    else NoCurve
  }

  /** `easings[ease] ? easings[ease](t) : t`: the selected curve at `t`,
      and the identity when the table has no entry. */
  function Ease(c: Curve, t: real, spring: real -> real): (r: real)
    ensures c == NoCurve || c == Linear ==> r == t
    ensures c == Spring ==> r == spring(t)
    ensures c != Spring && t == 0.0 ==> r == 0.0
    ensures c != Spring && t == 1.0 ==> r == 1.0
  {
    match c
    case Linear => t
    case EaseOutCubic => 1.0 - Cube(1.0 - t)
    case EaseInOut => if t < 0.5 then 2.0 * t * t else 1.0 - (-2.0 * t + 2.0) * (-2.0 * t + 2.0) / 2.0
    case Spring => spring(t)
    case NoCurve => t
  }

  lemma CubeInUnit(u: real)
    requires 0.0 <= u <= 1.0
    ensures 0.0 <= Cube(u) <= 1.0
  {
    assert 0.0 <= u * u <= 1.0 by {
      assert u * u <= u * 1.0;
    }
    assert u * u * u <= (u * u) * 1.0;
  }

  /** Every curve except `spring` maps progress in [0,1] into [0,1]:
      they neither overshoot nor undershoot. */
  lemma {:induction false} EaseStaysInUnit(c: Curve, t: real, spring: real -> real)
    requires c != Spring
    requires 0.0 <= t <= 1.0
    ensures 0.0 <= Ease(c, t, spring) <= 1.0
  {
    if c == EaseOutCubic {
      CubeInUnit(1.0 - t);
    } else if c == EaseInOut {
      if t < 0.5 {
        assert t * t <= 0.5 * t;
        assert 2.0 * t * t <= 0.5;
      } else {
        var u := -2.0 * t + 2.0;
        assert 0.0 <= u <= 1.0;
        assert u * u <= u * 1.0;
        assert 0.0 <= u * u <= 1.0;
      }
    }
  }
}
