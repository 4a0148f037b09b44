/** Geometry and random helpers of src/functions/utils.ts: the signed gap
    between two circles, the rounded random generators, the colour generator
    and the collision velocity algebra getSpeeds.

    Numbers are Dafny reals. Square roots are replaced by comparisons of
    squares, cos/sin of the collision angle are supplied by a `Trig`
    parameter, and every Math.random() draw is an element of a finite draw
    sequence whose values lie in [0, 1). */
module Utils {

  datatype Option<T> = None | Some(value: T)

  function Sq(a: real): real { a * a }

  function Cube(a: real): real { a * a * a }

  function Abs(a: real): real { if a < 0.0 then -a else a }

  function Min(a: int, b: int): int { if a <= b then a else b }

  function Max(a: int, b: int): int { if a <= b then b else a }

  // ---------------------------------------------------------------------
  // getDistance

  /** The sign of a signed gap `sqrt(d2) - r1 - r2`: the only information
      about `distance` that callers use (`<= 0`, `> 0`, `< 0`). */
  datatype Gap = Negative | Zero | Positive

  function SignOf(a: real): Gap
  {
    if a < 0.0 then Negative else if a == 0.0 then Zero else Positive
  }

  /** getDistance(x1, y1, r1, x2, y2, r2).distance, as its sign. */
  function GetDistance(x1: real, y1: real, r1: real, x2: real, y2: real, r2: real): (g: Gap)
    ensures g != Positive <==> r1 + r2 >= 0.0 && Sq(x1 - x2) + Sq(y1 - y2) <= Sq(r1 + r2)
    ensures g == Negative <==> r1 + r2 > 0.0 && Sq(x1 - x2) + Sq(y1 - y2) < Sq(r1 + r2)
  {
    var d2 := Sq(x1 - x2) + Sq(y1 - y2);
    var sum := r1 + r2;
    if sum < 0.0 then Positive
    else if d2 < Sq(sum) then Negative
    else if d2 == Sq(sum) then Zero
    else Positive
  }

  /** getDistance(...).isOverlapping: the gap is strictly negative. */
  predicate IsOverlapping(g: Gap) { g == Negative }

  /** `distance <= 0`: the circles touch or overlap. */
  predicate IsTouching(g: Gap) { g != Positive }

  lemma SquareLess(a: real, b: real)
    requires 0.0 <= a < b
    ensures Sq(a) < Sq(b)
  {
    var aa, ab, bb := a * a, a * b, b * b;
    assert aa <= ab;
    assert ab < bb;
  }

  lemma SquareMonotone(a: real, b: real)
    requires 0.0 <= a && 0.0 <= b
    ensures a < b <==> Sq(a) < Sq(b)
    ensures a == b <==> Sq(a) == Sq(b)
  {
    if a < b {
      SquareLess(a, b);
    } else if b < a {
      SquareLess(b, a);
    }
  }

  /** The squared comparisons in GetDistance give exactly the sign of
      `sqrt(d2) - r1 - r2` for the (unique) non-negative root of d2. */
  lemma GetDistanceMatchesSqrt(x1: real, y1: real, r1: real, x2: real, y2: real, r2: real, root: real)
    requires 0.0 <= root && Sq(root) == Sq(x1 - x2) + Sq(y1 - y2)
    ensures GetDistance(x1, y1, r1, x2, y2, r2) == SignOf(root - r1 - r2)
  {
    var sum := r1 + r2;
    if sum >= 0.0 {
      SquareMonotone(root, sum);
    }
  }

  /** The gap does not depend on the order of the two circles. */
  lemma GetDistanceSymmetric(x1: real, y1: real, r1: real, x2: real, y2: real, r2: real)
    ensures GetDistance(x1, y1, r1, x2, y2, r2) == GetDistance(x2, y2, r2, x1, y1, r1)
  {
    assert Sq(x1 - x2) == Sq(x2 - x1);
    assert Sq(y1 - y2) == Sq(y2 - y1);
  }

  // ---------------------------------------------------------------------
  // getSpeeds

  /** The collision-normal angle alpha, left symbolic: either
      Math.atan2(dx, dy) or one of the fallback constants 1 and -1. */
  datatype Angle = Atan2(dx: real, dy: real) | Radians(value: real)

  /** cos(alpha) and sin(alpha). */
  datatype Rot = Rot(cos: real, sin: real)

  /** The trigonometry, supplied from outside the model. */
  type Trig = Angle -> Rot

  /** The contact angle: atan2 of the centre offsets, or a fixed ±1 radian
      when the two centres share a y coordinate. */
  function CollisionAngle(x1: real, y1: real, x2: real, y2: real): (a: Angle)
    ensures a.Atan2? <==> y2 != y1
    ensures a.Atan2? ==> a.dx == x2 - x1 && a.dy == y2 - y1
    ensures a.Radians? ==> (a.value == 1.0 || a.value == -1.0) && (a.value == 1.0 <==> x2 > x1)
  {
    if y2 != y1 then Atan2(x2 - x1, y2 - y1)
    else if x2 > x1 then Radians(1.0) else Radians(-1.0)
  }

  /** With the centres on one horizontal line the fallback angle flips
      with the order of the balls (unless the centres coincide). */
  lemma CollisionAngleFallbackFlips(x1: real, y: real, x2: real)
    requires x1 != x2
    ensures CollisionAngle(x1, y, x2, y).value == -CollisionAngle(x2, y, x1, y).value
  {
  }

  /** The 1-D collision along the normal with r^3 as mass: the new normal
      components uy1alpha and uy2alpha of getSpeeds. */
  function NormalSpeeds(v1: real, v2: real, r1: real, r2: real): (u: (real, real))
    requires Cube(r1) + Cube(r2) != 0.0
    ensures u.1 - u.0 == v1 - v2
  {
    var u1 := (v1 * Cube(r1) + 2.0 * v2 * Cube(r2) - v1 * Cube(r2)) / (Cube(r1) + Cube(r2));
    (u1, u1 - v2 + v1)
  }

  /** Positive radii give a positive divisor r1^3 + r2^3. */
  lemma DenominatorPositive(r1: real, r2: real)
    requires 0.0 < r1 && 0.0 < r2
    ensures Cube(r1) + Cube(r2) > 0.0
  {
    assert r1 * r1 > 0.0;
    assert r1 * r1 * r1 > 0.0;
    assert r2 * r2 > 0.0;
    assert r2 * r2 * r2 > 0.0;
  }

  /** The normal step conserves the r^3-weighted momentum. */
  lemma NormalMomentum(v1: real, v2: real, r1: real, r2: real)
    requires Cube(r1) + Cube(r2) != 0.0
    ensures var u := NormalSpeeds(v1, v2, r1, r2);
      Cube(r1) * u.0 + Cube(r2) * u.1 == Cube(r1) * v1 + Cube(r2) * v2
  {
    var m1, m2 := Cube(r1), Cube(r2);
    var u := NormalSpeeds(v1, v2, r1, r2);
    assert u.0 * (m1 + m2) == v1 * m1 + 2.0 * v2 * m2 - v1 * m2;
    calc {
      m1 * u.0 + m2 * u.1;
      m1 * u.0 + m2 * (u.0 - v2 + v1);
      (m1 + m2) * u.0 + m2 * (v1 - v2);
      v1 * m1 + 2.0 * v2 * m2 - v1 * m2 + m2 * (v1 - v2);
      m1 * v1 + m2 * v2;
    }
  }

  /** The normal step conserves the r^3-weighted kinetic energy: it is an
      elastic collision in the rotated frame. */
  lemma NormalEnergy(v1: real, v2: real, r1: real, r2: real)
    requires Cube(r1) + Cube(r2) != 0.0
    ensures var u := NormalSpeeds(v1, v2, r1, r2);
      Cube(r1) * Sq(u.0) + Cube(r2) * Sq(u.1) == Cube(r1) * Sq(v1) + Cube(r2) * Sq(v2)
  {
    var m1, m2 := Cube(r1), Cube(r2);
    var u := NormalSpeeds(v1, v2, r1, r2);
    NormalMomentum(v1, v2, r1, r2);
    // momentum: m1 (u0 - v1) == m2 (v2 - u1); relative speed: u0 + v1 == u1 + v2
    assert m1 * (u.0 - v1) == m2 * (v2 - u.1);
    assert u.0 + v1 == u.1 + v2;
    calc {
      m1 * Sq(u.0) - m1 * Sq(v1);
      m1 * (u.0 - v1) * (u.0 + v1);
      m2 * (v2 - u.1) * (u.0 + v1);
      m2 * (v2 - u.1) * (u.1 + v2);
      m2 * Sq(v2) - m2 * Sq(u.1);
    }
  }

  /** With equal radii the normal components are exchanged. */
  lemma NormalEqualRadii(v1: real, v2: real, r: real)
    requires Cube(r) + Cube(r) != 0.0
    ensures NormalSpeeds(v1, v2, r, r) == (v2, v1)
  {
    var m := Cube(r);
    var u1 := (v1 * m + 2.0 * v2 * m - v1 * m) / (m + m);
    assert v1 * m + 2.0 * v2 * m - v1 * m == v2 * (m + m);
    assert (v2 * (m + m)) / (m + m) == v2;
    assert u1 == v2;
    assert NormalSpeeds(v1, v2, r, r).0 == u1;
  }

  /** The argument of getSpeeds. */
  datatype CollapseData = CollapseData(
    x1: real, y1: real, r1: real, vx1: real, vy1: real,
    x2: real, y2: real, r2: real, vx2: real, vy2: real,
    attenuationRatio: real)

  datatype Speeds = Speeds(vx1New: real, vy1New: real, vx2New: real, vy2New: real)

  function ScaleSpeeds(s: Speeds, k: real): Speeds
  {
    Speeds(s.vx1New * k, s.vy1New * k, s.vx2New * k, s.vy2New * k)
  }

  /** The four components of getSpeeds before the final multiplication by
      attenuationRatio; `t` holds cos(alpha) and sin(alpha). */
  function RawSpeeds(d: CollapseData, t: Rot): Speeds
    requires Cube(d.r1) + Cube(d.r2) != 0.0
  {
    var c, s := t.cos, t.sin;
    var vx1alpha := d.vx1 * c - d.vy1 * s;
    var vy1alpha := d.vx1 * s + d.vy1 * c;
    var vx2alpha := d.vx2 * c - d.vy2 * s;
    var vy2alpha := -d.vx2 * s - d.vy2 * c;
    var u := NormalSpeeds(vy1alpha, vy2alpha, d.r1, d.r2);
    Speeds(vx1alpha * c - u.0 * s,
           -vx1alpha * s + u.0 * c,
           -vx2alpha * c + u.1 * s,
           -vx2alpha * s + u.1 * c)
  }

  /** getSpeeds(data): every output is a rotated component multiplied by
      attenuationRatio. */
  function GetSpeeds(d: CollapseData, trig: Trig): (v: Speeds)
    requires Cube(d.r1) + Cube(d.r2) != 0.0
    ensures d.attenuationRatio == 0.0 ==> v == Speeds(0.0, 0.0, 0.0, 0.0)
  {
    var t := trig(CollisionAngle(d.x1, d.y1, d.x2, d.y2));
    ScaleSpeeds(RawSpeeds(d, t), d.attenuationRatio)
  }

  /** getSpeeds is linear in attenuationRatio: the result for ratio k is
      the result for ratio 1 scaled by k. */
  lemma GetSpeedsScales(d: CollapseData, trig: Trig, k: real)
    requires Cube(d.r1) + Cube(d.r2) != 0.0
    ensures GetSpeeds(d.(attenuationRatio := k), trig)
         == ScaleSpeeds(GetSpeeds(d.(attenuationRatio := 1.0), trig), k)
  {
    var dk, d1 := d.(attenuationRatio := k), d.(attenuationRatio := 1.0);
    var t := trig(CollisionAngle(d.x1, d.y1, d.x2, d.y2));
    var raw := RawSpeeds(d1, t);
    assert RawSpeeds(dk, t) == raw;
    assert GetSpeeds(dk, trig) == ScaleSpeeds(raw, k);
    assert GetSpeeds(d1, trig) == ScaleSpeeds(raw, 1.0) == raw;
  }

  /** In the rotated frame the two new normal components of getSpeeds
      differ by the negated old difference, and equal radii give
      uy1alpha == vy2alpha. */
  lemma GetSpeedsNormalFrame(vy1alpha: real, vy2alpha: real, r1: real, r2: real)
    requires Cube(r1) + Cube(r2) != 0.0
    ensures var u := NormalSpeeds(vy1alpha, vy2alpha, r1, r2);
      u.1 - u.0 == vy1alpha - vy2alpha && (r1 == r2 ==> u.0 == vy2alpha)
  {
    if r1 == r2 {
      NormalEqualRadii(vy1alpha, vy2alpha, r1);
    }
  }

  // ---------------------------------------------------------------------
  // generateRadius, generateCoordinates

  /** A value Math.random() can return. */
  predicate IsDraw(u: real) { 0.0 <= u < 1.0 }

  predicate AreDraws(s: seq<real>) { forall i :: 0 <= i < |s| ==> IsDraw(s[i]) }

  /** Math.round: rounds half-way values up. */
  function Round(x: real): (n: int)
    ensures x - 0.5 < n as real <= x + 0.5
  {
    (x + 0.5).Floor
  }

  lemma DrawScaled(u: real, d: real)
    requires IsDraw(u)
    ensures 0.0 <= d ==> 0.0 <= u * d <= d
    ensures 0.0 < d ==> u * d < d
    ensures d < 0.0 ==> d < u * d <= 0.0
    ensures d == 0.0 ==> u * d == 0.0
  {
    if 0.0 < d {
      assert u * d < 1.0 * d;
    } else if d < 0.0 {
      assert u * (-d) < 1.0 * (-d);
    }
  }

  /** Math.round(lo + Math.random() * (hi - lo)) with the draw `u`. */
  function RoundedDraw(lo: int, hi: int, u: real): (n: int)
    requires IsDraw(u)
    ensures Min(lo, hi) <= n <= Max(lo, hi)
  {
    var d := (hi - lo) as real;
    var x := lo as real + u * d;
    DrawScaled(u, d);
    Round(x)
  }

  /** generateRadius(minR, maxR) with the draw `u`. */
  function GenerateRadius(minR: int, maxR: int, u: real): (r: int)
    requires IsDraw(u)
    ensures Min(minR, maxR) <= r <= Max(minR, maxR)
  {
    RoundedDraw(minR, maxR, u)
  }

  /** generateCoordinates(xMin, xMax, yMin, yMax) with the draws `ux`, `uy`. */
  function GenerateCoordinates(xMin: int, xMax: int, yMin: int, yMax: int, ux: real, uy: real): (p: (int, int))
    requires IsDraw(ux) && IsDraw(uy)
    ensures Min(xMin, xMax) <= p.0 <= Max(xMin, xMax)
    ensures Min(yMin, yMax) <= p.1 <= Max(yMin, yMax)
  {
    (RoundedDraw(xMin, xMax, ux), RoundedDraw(yMin, yMax, uy))
  }

  // ---------------------------------------------------------------------
  // generateColor

  const HexChars: string := "0123456789abcdef"

  /** hexChars[Math.floor(Math.random() * 16)] with the draw `u`. */
  function HexDigit(u: real): (c: char)
    requires IsDraw(u)
    ensures c in HexChars
  {
    HexChars[(u * 16.0).Floor]
  }

  /** A colour generateColor may return. */
  predicate IsRandomColor(s: string)
  {
    |s| == 7 && s[0] == '#' && (forall i :: 1 <= i < 7 ==> s[i] in HexChars)
    && s != "#000000" && s != "#ffffff"
  }

  function HexString(draws: seq<real>): (s: string)
    requires AreDraws(draws)
    ensures |s| == |draws| && forall i :: 0 <= i < |s| ==> s[i] in HexChars
  {
    seq(|draws|, i requires 0 <= i < |draws| => HexDigit(draws[i]))
  }

  /** The colour an attempt of generateColor builds from the six draws
      starting at k. */
  function ColorAt(draws: seq<real>, k: nat): (c: string)
    requires AreDraws(draws) && k + 6 <= |draws|
    ensures |c| == 7 && c[0] == '#' && forall i :: 1 <= i < 7 ==> c[i] in HexChars
  {
    "#" + HexString(draws[k..k + 6])
  }

  /** The attempt starting at draw k gives one of the two reserved
      colours. */
  predicate ReservedColor(draws: seq<real>, k: nat)
    requires AreDraws(draws) && k + 6 <= |draws|
  {
    ColorAt(draws, k) == "#000000" || ColorAt(draws, k) == "#ffffff"
  }

  /** The colour generateColor settles on when its draws start at `from`,
      with the position of the first unused draw; None when the draws run
      out first. Each attempt uses six draws; "#000000" and "#ffffff" are
      rejected and drawn again. */
  function PickColor(draws: seq<real>, from: nat): (r: Option<(string, nat)>)
    requires AreDraws(draws)
    ensures r.Some? ==> IsRandomColor(r.value.0) && from + 6 <= r.value.1 <= |draws|
    decreases |draws| - from
  {
    if from + 6 > |draws| then None
    else if ReservedColor(draws, from) then PickColor(draws, from + 6)
    else Some((ColorAt(draws, from), from + 6))
  }

  /** Every attempt generateColor can still complete from `from` is
      reserved: in the source the retries would go on past the last draw. */
  ghost predicate AllReserved(draws: seq<real>, from: nat)
    requires AreDraws(draws)
    decreases |draws| - from
  {
    from + 6 <= |draws| ==> ReservedColor(draws, from) && AllReserved(draws, from + 6)
  }

  /** The attempts from `from` up to `to`, six draws apart, are all
      reserved, and `to` is where the next attempt starts. */
  ghost predicate ReservedUntil(draws: seq<real>, from: nat, to: nat)
    requires AreDraws(draws)
    decreases (to as int) - from
  {
    from == to
    || (from + 6 <= to && from + 6 <= |draws| && ReservedColor(draws, from) && ReservedUntil(draws, from + 6, to))
  }

  /** PickColor fails exactly when every remaining attempt is reserved. */
  lemma {:induction false} PickColorNone(draws: seq<real>, from: nat)
    requires AreDraws(draws)
    ensures PickColor(draws, from).None? <==> AllReserved(draws, from)
    decreases |draws| - from
  {
    if from + 6 <= |draws| {
      PickColorNone(draws, from + 6);
    }
  }

  /** PickColor settles on the first attempt that is not reserved: every
      earlier attempt was reserved, and the colour is made of the six draws
      before the returned position. */
  lemma {:induction false} PickColorFirst(draws: seq<real>, from: nat)
    requires AreDraws(draws) && PickColor(draws, from).Some?
    ensures var n := PickColor(draws, from).value.1;
      && from + 6 <= n <= |draws|
      && ReservedUntil(draws, from, n - 6)
      && !ReservedColor(draws, n - 6)
      && PickColor(draws, from).value.0 == ColorAt(draws, n - 6)
    decreases |draws| - from
  {
    if ReservedColor(draws, from) {
      assert PickColor(draws, from) == PickColor(draws, from + 6);
      PickColorFirst(draws, from + 6);
    } else {
      var n: nat := from + 6;
      assert PickColor(draws, from) == Some((ColorAt(draws, from), n));
    }
  }

  /** generateColor(): the `for` loop appends six hex digits, and a
      reserved colour restarts from "#" through the recursive call. */
  method GenerateColor(draws: seq<real>, from: nat) returns (res: Option<(string, nat)>)
    requires AreDraws(draws)
    ensures res == PickColor(draws, from)
    ensures res.Some? ==> IsRandomColor(res.value.0)
    decreases |draws| - from
  {
    var hexColor := "#";
    var next := from;
    for i := 0 to 6
      invariant next == from + i
      invariant i > 0 ==> next <= |draws|
      invariant hexColor == if i == 0 then "#" else "#" + HexString(draws[from..next])
    {
      if next >= |draws| {
        return None;
      }
      assert draws[from..next + 1] == draws[from..next] + [draws[next]];
      hexColor := hexColor + [HexDigit(draws[next])];
      next := next + 1;
    }
    assert hexColor == ColorAt(draws, from);
    if hexColor == "#000000" || hexColor == "#ffffff" {
      assert ReservedColor(draws, from);
      res := GenerateColor(draws, next);
    } else {
      assert !ReservedColor(draws, from);
      res := Some((hexColor, next));
    }
  }
}
