/** The arithmetic of a volume fade (voice_audio.py, _ease_in_out and _fade_inputs), over
    the reals. */
module Fading {

  function Clamp01(t: real): real { if t < 0.0 then 0.0 else if t > 1.0 then 1.0 else t }

  /** Cubic ease-in-out. */
  function Ease(t: real): real {
    var u := Clamp01(t);
    if u < 0.5 then 4.0 * u * u * u
    else 1.0 - (-2.0 * u + 2.0) * (-2.0 * u + 2.0) * (-2.0 * u + 2.0) / 2.0
  }

  /** Multiplication by name, so that the few facts needed of it are used one at a time. */
  function Mul(x: real, y: real): real { x * y }

  function Cube(x: real): real { Mul(Mul(x, x), x) }

  lemma MulSub(a: real, b: real, c: real)
    ensures Mul(b - a, c) == Mul(b, c) - Mul(a, c)
  {
  }

  lemma MulSign(a: real, b: real)
    requires 0.0 <= a && 0.0 <= b
    ensures 0.0 <= Mul(a, b)
  {
  }

  lemma MulUnits(a: real, b: real)
    ensures Mul(1.0, a) == a && Mul(0.0, a) == 0.0
    ensures Mul(a, -b) == -Mul(a, b) && Mul(a, b) == Mul(b, a)
  {
  }

  lemma MulMono(a: real, b: real, c: real)
    requires a <= b && 0.0 <= c
    ensures Mul(a, c) <= Mul(b, c)
  {
    hide Mul;
    MulSub(a, b, c);
    MulSign(b - a, c);
  }

  lemma CubeMono(a: real, b: real)
    requires 0.0 <= a <= b
    ensures 0.0 <= Cube(a) <= Cube(b)
  {
    hide Mul;
    MulMono(a, b, a);
    MulMono(a, b, b);
    MulUnits(a, b);
    MulSign(a, a);
    MulSign(b, b);
    MulSign(Mul(a, a), a);
    MulMono(Mul(a, a), Mul(b, b), a);
    MulMono(a, b, Mul(b, b));
    MulUnits(Mul(b, b), a);
    MulUnits(Mul(b, b), b);
  }

  /** The two halves are mirrored cubes. */
  lemma EaseHalves(t: real)
    requires 0.0 <= t <= 1.0
    ensures t < 0.5 ==> Ease(t) == 4.0 * Cube(t)
    ensures t >= 0.5 ==> Ease(t) == 1.0 - 4.0 * Cube(1.0 - t)
  {
    var v, w := 1.0 - t, -2.0 * t + 2.0;
    assert w == 2.0 * v;
    assert w * w == 4.0 * (v * v);
    assert w * w * w == 8.0 * (v * v * v);
  }

  lemma HalfCube()
    ensures 4.0 * Cube(0.5) == 0.5
  {
  }

  /** e(0) = 0, e(1) = 1, and e(t) + e(1 - t) = 1. */
  lemma EaseEnds()
    ensures Ease(0.0) == 0.0 && Ease(1.0) == 1.0
  {
  }

  lemma EaseSymmetric(t: real)
    requires 0.0 <= t <= 1.0
    ensures Ease(t) + Ease(1.0 - t) == 1.0
  {
    hide Ease;
    hide Cube;
    EaseHalves(t);
    EaseHalves(1.0 - t);
    HalfCube();
    assert 1.0 - (1.0 - t) == t;
  }

  lemma EaseClamps(t: real)
    ensures Ease(t) == Ease(Clamp01(t))
  {
  }

  /** The curve never falls, anywhere on the line. */
  lemma EaseMonotone(a: real, b: real)
    requires a <= b
    ensures 0.0 <= Ease(a) <= Ease(b) <= 1.0
  {
    hide Cube;
    var u, v := Clamp01(a), Clamp01(b);
    EaseClamps(a);
    EaseClamps(b);
    hide Ease;
    EaseHalves(u);
    EaseHalves(v);
    HalfCube();
    CubeMono(u, v);
    CubeMono(1.0 - v, 1.0 - u);
    if u < 0.5 { CubeMono(u, 0.5); }
    if v < 0.5 { CubeMono(v, 0.5); }
    if u >= 0.5 { CubeMono(1.0 - u, 0.5); }
    if v >= 0.5 { CubeMono(1.0 - v, 0.5); }
  }

  /** Python's round(): to nearest, ties to even. */
  function Round(x: real): int {
    var f := x.Floor;
    var frac := x - f as real;
    if frac < 0.5 then f else if frac > 0.5 then f + 1 else if f % 2 == 0 then f else f + 1
  }

  lemma RoundMono(x: real, y: real)
    requires x <= y
    ensures Round(x) <= Round(y)
  {
    assert x.Floor <= y.Floor;
  }

  lemma RoundInt(n: int)
    ensures Round(n as real) == n
  {
  }

  /** The share of a distance. */
  function Part(d: real, e: real): real { Mul(e, d) }

  /** The blend of start and end at weight e. */
  function Blend(start: int, end: int, e: real): real {
    start as real + Part((end - start) as real, e)
  }

  lemma PartMono(d: real, e: real, f: real)
    requires 0.0 <= e <= f <= 1.0
    ensures if d >= 0.0 then 0.0 <= Part(d, e) <= Part(d, f) <= d else d <= Part(d, f) <= Part(d, e) <= 0.0
    ensures Part(d, 1.0) == d
  {
    hide Mul;
    var c := if d >= 0.0 then d else -d;
    MulMono(0.0, e, c);
    MulMono(e, f, c);
    MulMono(f, 1.0, c);
    MulUnits(c, c);
    MulUnits(d, d);
    MulUnits(e, d);
    MulUnits(f, d);
  }

  /** The volume written at step `s` of `steps`. */
  function FadeVolume(start: int, end: int, s: nat, steps: nat): int
    requires steps > 0
  {
    Round(Blend(start, end, Ease(s as real / steps as real)))
  }

  lemma SelfRatio(n: real)
    requires n > 0.0
    ensures n / n == 1.0
  {
  }

  lemma DivMono(a: real, b: real, n: real)
    requires a <= b && n > 0.0
    ensures a / n <= b / n
  {
  }

  lemma RatioMono(s: nat, r: nat, steps: nat)
    requires s <= r <= steps && steps > 0
    ensures 0.0 <= s as real / steps as real <= r as real / steps as real <= 1.0
  {
    var n := steps as real;
    assert s as real <= r as real <= n;
    DivMono(0.0, s as real, n);
    DivMono(s as real, r as real, n);
    DivMono(r as real, n, n);
    SelfRatio(n);
  }

  /** Between the ends, an eased blend stays in the interval and moves one way. */
  lemma BlendMono(start: int, end: int, e: real, f: real)
    requires 0.0 <= e <= f <= 1.0
    ensures if start <= end then start as real <= Blend(start, end, e) <= Blend(start, end, f) <= end as real
            else end as real <= Blend(start, end, f) <= Blend(start, end, e) <= start as real
    ensures Blend(start, end, 1.0) == end as real
  {
    hide Part;
    PartMono((end - start) as real, e, f);
    assert (end - start) as real == end as real - start as real;
  }

  /** For every start, end and number of steps the written volumes move one way only, never
      leave the interval between start and end, and finish exactly at the end. */
  lemma FadeIsMonotone(start: int, end: int, s: nat, r: nat, steps: nat)
    requires s <= r <= steps && steps > 0
    ensures if start <= end then start <= FadeVolume(start, end, s, steps) <= FadeVolume(start, end, r, steps) <= end
            else end <= FadeVolume(start, end, r, steps) <= FadeVolume(start, end, s, steps) <= start
    ensures FadeVolume(start, end, steps, steps) == end
  {
    hide Ease;
    hide Mul;
    hide Round;
    hide Blend;
    RatioMono(s, r, steps);
    var e, f := Ease(s as real / steps as real), Ease(r as real / steps as real);
    EaseMonotone(s as real / steps as real, r as real / steps as real);
    BlendMono(start, end, e, f);
    var x, y := Blend(start, end, e), Blend(start, end, f);
    RoundInt(start);
    RoundInt(end);
    if start <= end {
      RoundMono(start as real, x);
      RoundMono(x, y);
      RoundMono(y, end as real);
    } else {
      RoundMono(end as real, y);
      RoundMono(y, x);
      RoundMono(x, start as real);
    }
    SelfRatio(steps as real);
    EaseEnds();
  }

  /** The curve in the first half; EaseSymmetric gives the other one, and it is flat outside. */
  lemma EaseIsCubic(t: real)
    ensures 0.0 <= t < 0.5 ==> Ease(t) == 4.0 * (t * t * t)
    ensures t <= 0.0 ==> Ease(t) == 0.0
    ensures t >= 1.0 ==> Ease(t) == 1.0
  {
    if 0.0 <= t < 0.5 {
      EaseHalves(t);
    } else if t <= 0.0 || t >= 1.0 {
      EaseClamps(t);
      EaseEnds();
    }
  }

  /** Rounding goes to a nearest integer, to the even one from half-way. */
  lemma RoundIsNearest(x: real)
    ensures Round(x) as real - 0.5 <= x <= Round(x) as real + 0.5
    ensures x == Round(x) as real - 0.5 || x == Round(x) as real + 0.5 ==> Round(x) % 2 == 0
  {
  }

  /** The volume written at a step is a nearest one to the eased point between start and end. */
  lemma FadeIsNearest(start: int, end: int, s: nat, steps: nat)
    requires steps > 0
    ensures var point := start as real + Ease(s as real / steps as real) * (end - start) as real;
            var v := FadeVolume(start, end, s, steps) as real;
            v - 0.5 <= point <= v + 0.5
  {
    hide Ease;
    hide Round;
    RoundIsNearest(Blend(start, end, Ease(s as real / steps as real)));
  }

  /** The first `n` volumes of a fade. */
  function Trail(start: int, end: int, n: nat, steps: nat): seq<int>
    requires n <= steps && steps > 0
  {
    if n == 0 then [] else Trail(start, end, n - 1, steps) + [FadeVolume(start, end, n, steps)]
  }

  lemma {:induction false} TrailAt(start: int, end: int, n: nat, steps: nat, i: nat)
    requires i < n <= steps
    ensures |Trail(start, end, n, steps)| == n && Trail(start, end, n, steps)[i] == FadeVolume(start, end, i + 1, steps)
  {
    if n > 1 { TrailAt(start, end, n - 1, steps, if i < n - 1 then i else 0); }
  }

  /** A whole fade as heard: one direction, inside the interval, ending at the target. */
  lemma TrailIsMonotone(start: int, end: int, steps: nat, i: nat, j: nat)
    requires i <= j < steps
    ensures var trail := Trail(start, end, steps, steps);
            && |trail| == steps && trail[steps - 1] == end
            && (if start <= end then start <= trail[i] <= trail[j] <= end else end <= trail[j] <= trail[i] <= start)
  {
    hide FadeVolume;
    TrailAt(start, end, steps, steps, i);
    TrailAt(start, end, steps, steps, j);
    TrailAt(start, end, steps, steps, steps - 1);
    FadeIsMonotone(start, end, i + 1, j + 1, steps);
  }
}
