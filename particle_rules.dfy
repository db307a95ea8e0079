/**
 * The pure rules behind `CustomLineEffects`: option merging, how a particle
 * is created from random draws, how it moves and bounces off the canvas
 * edges, which lines a frame draws and how faint each one is, and how the
 * "R,G,B" colour string is split.
 */
module ParticleRules {
  import opened Wrappers
  import opened JsString

  // ---------------------------------------------------------------- options

  /** The merged `options` record of a `CustomLineEffects` instance. */
  datatype Options = Options(
    color: string,
    opacity: real,
    count: int,
    zIndex: int,
    lineDistance: real,
    lineWidth: real,
    particleSpeed: real)

  /** The keys a caller passes to the constructor or to `updateOptions`; `None` is an absent key. */
  datatype OptionsPatch = OptionsPatch(
    color: Option<string>,
    opacity: Option<real>,
    count: Option<int>,
    zIndex: Option<int>,
    lineDistance: Option<real>,
    lineWidth: Option<real>,
    particleSpeed: Option<real>)

  /** The object literal `{}`: no key at all. */
  const NoChanges := OptionsPatch(None, None, None, None, None, None, None)

  /** The values the constructor starts from before spreading the caller's options. */
  function Defaults(): (o: Options)
    ensures 0 < o.count && 0.0 < o.lineDistance && 0.0 < o.opacity <= 1.0
    ensures 0.0 < o.lineWidth && 0.0 < o.particleSpeed
  {
    Options("100,149,237", 0.7, 50, 9997, 150.0, 1.0, 2.0)
  }

  /** `{ ...o, ...p }`: a key present in `p` takes its new value, every other key keeps its old one. */
  function Merge(o: Options, p: OptionsPatch): (r: Options)
    ensures p.color.Some? ==> r.color == p.color.value
    ensures p.color.None? ==> r.color == o.color
    ensures p.opacity.Some? ==> r.opacity == p.opacity.value
    ensures p.opacity.None? ==> r.opacity == o.opacity
    ensures p.count.Some? ==> r.count == p.count.value
    ensures p.count.None? ==> r.count == o.count
    ensures p.zIndex.Some? ==> r.zIndex == p.zIndex.value
    ensures p.zIndex.None? ==> r.zIndex == o.zIndex
    ensures p.lineDistance.Some? ==> r.lineDistance == p.lineDistance.value
    ensures p.lineDistance.None? ==> r.lineDistance == o.lineDistance
    ensures p.lineWidth.Some? ==> r.lineWidth == p.lineWidth.value
    ensures p.lineWidth.None? ==> r.lineWidth == o.lineWidth
    ensures p.particleSpeed.Some? ==> r.particleSpeed == p.particleSpeed.value
    ensures p.particleSpeed.None? ==> r.particleSpeed == o.particleSpeed
  {
    Options(
      p.color.GetOr(o.color),
      p.opacity.GetOr(o.opacity),
      p.count.GetOr(o.count),
      p.zIndex.GetOr(o.zIndex),
      p.lineDistance.GetOr(o.lineDistance),
      p.lineWidth.GetOr(o.lineWidth),
      p.particleSpeed.GetOr(o.particleSpeed))
  }

  /** `{ ...p, ...q }`: the keys of both patches, `q` winning where both have one. */
  function Then(p: OptionsPatch, q: OptionsPatch): OptionsPatch {
    OptionsPatch(
      if q.color.Some? then q.color else p.color,
      if q.opacity.Some? then q.opacity else p.opacity,
      if q.count.Some? then q.count else p.count,
      if q.zIndex.Some? then q.zIndex else p.zIndex,
      if q.lineDistance.Some? then q.lineDistance else p.lineDistance,
      if q.lineWidth.Some? then q.lineWidth else p.lineWidth,
      if q.particleSpeed.Some? then q.particleSpeed else p.particleSpeed)
  }

  /** Spreading `{}` keeps every option; spreading the same keys twice is spreading them once. */
  lemma MergeIdentityAndIdempotence(o: Options, p: OptionsPatch)
    ensures Merge(o, NoChanges) == o
    ensures Merge(Merge(o, p), p) == Merge(o, p)
  {
  }

  /** Two successive `updateOptions` calls leave the options one call with both patches would. */
  lemma MergeSequence(o: Options, p: OptionsPatch, q: OptionsPatch)
    ensures Merge(Merge(o, p), q) == Merge(o, Then(p, q))
  {
  }

  /** The number of times `for (let i = 0; i < count; i++)` runs. */
  function ParticleTotal(count: int): (n: nat)
    ensures count >= 0 ==> n == count
    ensures count < 0 ==> n == 0
  {
    if count < 0 then 0 else count
  }

  // ---------------------------------------------------------------- particles

  datatype Particle = Particle(x: real, y: real, speedX: real, speedY: real, radius: real)

  /** The five `Math.random()` results `createParticles` draws for one particle, in call order. */
  datatype Draw = Draw(x: real, y: real, speedX: real, speedY: real, radius: real)

  predicate IsUnit(r: real) { 0.0 <= r < 1.0 }

  /** Every value lies in `[0, 1)`, as `Math.random()` guarantees. */
  predicate ValidDraw(d: Draw) {
    IsUnit(d.x) && IsUnit(d.y) && IsUnit(d.speedX) && IsUnit(d.speedY) && IsUnit(d.radius)
  }

  function Abs(r: real): real { if r < 0.0 then -r else r }

  /** `Math.random() * bound`: a position along one canvas axis. */
  function Place(r: real, bound: real): (v: real)
    ensures IsUnit(r) && 0.0 <= bound ==> 0.0 <= v <= bound
    ensures IsUnit(r) && 0.0 < bound ==> v < bound
  {
    assert IsUnit(r) && 0.0 < bound ==> r * bound < 1.0 * bound;
    r * bound
  }

  /** `(Math.random() - 0.5) * speed`: a speed component, centred on zero. */
  function Launch(r: real, speed: real): (v: real)
    ensures IsUnit(r) ==> Abs(v) <= Abs(speed) / 2.0
    ensures IsUnit(r) && 0.0 <= speed ==> -speed / 2.0 <= v <= speed / 2.0
    ensures IsUnit(r) && 0.0 < speed ==> v < speed / 2.0
  {
    var v := (r - 0.5) * speed;
    if IsUnit(r) then CentredScale(r, speed); v else v
  }

  /** The particle record `createParticles` pushes for one set of draws. */
  function Spawn(d: Draw, width: real, height: real, speed: real): (p: Particle)
    ensures ValidDraw(d) && 0.0 <= width && 0.0 <= height ==> Inside(p, width, height)
    ensures ValidDraw(d) ==> 0.5 <= p.radius < 2.0
  {
    Particle(
      Place(d.x, width),
      Place(d.y, height),
      Launch(d.speedX, speed),
      Launch(d.speedY, speed),
      d.radius * 1.5 + 0.5)
  }

  /** The particle array `createParticles` builds: one particle per draw, in order. */
  function Spawned(draws: seq<Draw>, width: real, height: real, speed: real): (ps: seq<Particle>)
    ensures |ps| == |draws|
    ensures forall k :: 0 <= k < |draws| ==> ps[k] == Spawn(draws[k], width, height, speed)
  {
    seq(|draws|, k requires 0 <= k < |draws| => Spawn(draws[k], width, height, speed))
  }

  /** The closed canvas rectangle `[0, width] x [0, height]`. */
  predicate Inside(p: Particle, width: real, height: real) {
    0.0 <= p.x <= width && 0.0 <= p.y <= height
  }

  lemma CentredPositive(c: real, s: real)
    requires -0.5 <= c < 0.5 && 0.0 < s
    ensures -0.5 * s <= c * s < 0.5 * s
  {
  }

  lemma CentredNegative(c: real, s: real)
    requires -0.5 <= c < 0.5 && s < 0.0
    ensures 0.5 * s < c * s <= -0.5 * s
  {
  }

  /** A speed `(u - 0.5) * s` with `u` in `[0, 1)` lies in `[-s/2, s/2)`. */
  lemma CentredScale(u: real, s: real)
    requires IsUnit(u)
    ensures Abs((u - 0.5) * s) <= Abs(s) / 2.0
    ensures 0.0 <= s ==> -s / 2.0 <= (u - 0.5) * s <= s / 2.0
    ensures 0.0 < s ==> (u - 0.5) * s < s / 2.0
  {
    if 0.0 < s {
      CentredPositive(u - 0.5, s);
    } else if s < 0.0 {
      CentredNegative(u - 0.5, s);
    }
  }

  /**
   * With draws in `[0, 1)`: the position lies on the canvas (strictly below a
   * non-zero width or height), each speed in `[-speed/2, speed/2)` and the
   * radius in `[0.5, 2.0)`.
   */
  lemma SpawnBounds(d: Draw, width: real, height: real, speed: real)
    requires ValidDraw(d) && 0.0 <= width && 0.0 <= height
    ensures var p := Spawn(d, width, height, speed);
      && Inside(p, width, height)
      && (0.0 < width ==> p.x < width)
      && (0.0 < height ==> p.y < height)
      && Abs(p.speedX) <= Abs(speed) / 2.0
      && Abs(p.speedY) <= Abs(speed) / 2.0
      && (0.0 <= speed ==> -speed / 2.0 <= p.speedX <= speed / 2.0 && -speed / 2.0 <= p.speedY <= speed / 2.0)
      && (0.0 < speed ==> p.speedX < speed / 2.0 && p.speedY < speed / 2.0)
      && 0.5 <= p.radius < 2.0
  {
  }

  // ---------------------------------------------------------------- motion

  /**
   * One axis of the bouncing motion, as an invariant: the coordinate is at
   * most one speed step outside `[0, bound]`, and when it is outside, its
   * speed points back inside.
   */
  predicate InBand(pos: real, speed: real, bound: real) {
    && -Abs(speed) <= pos <= bound + Abs(speed)
    && (pos < 0.0 ==> speed > 0.0)
    && (pos > bound ==> speed < 0.0)
  }

  predicate Banded(p: Particle, width: real, height: real) {
    InBand(p.x, p.speedX, width) && InBand(p.y, p.speedY, height)
  }

  /**
   * What `updateParticles` does to one particle: it moves by its speed, and a
   * speed component flips sign exactly when the new coordinate lies outside
   * `[0, width]` (resp. `[0, height]`). Sizes never change, and the band
   * invariant is kept on a canvas of non-negative size.
   */
  function Step(p: Particle, width: real, height: real): (q: Particle)
    ensures q.x == p.x + p.speedX && q.y == p.y + p.speedY
    ensures q.x < 0.0 || q.x > width ==> q.speedX == -p.speedX
    ensures 0.0 <= q.x <= width ==> q.speedX == p.speedX
    ensures q.y < 0.0 || q.y > height ==> q.speedY == -p.speedY
    ensures 0.0 <= q.y <= height ==> q.speedY == p.speedY
    ensures Abs(q.speedX) == Abs(p.speedX) && Abs(q.speedY) == Abs(p.speedY)
    ensures q.radius == p.radius
    ensures 0.0 <= width && 0.0 <= height && Banded(p, width, height) ==> Banded(q, width, height)
  {
    var x := p.x + p.speedX;
    var y := p.y + p.speedY;
    Particle(
      x,
      y,
      if x < 0.0 || x > width then -p.speedX else p.speedX,
      if y < 0.0 || y > height then -p.speedY else p.speedY,
      p.radius)
  }

  /** One frame's update of the whole array: every particle steps, the count stays. */
  function StepAll(ps: seq<Particle>, width: real, height: real): (qs: seq<Particle>)
    ensures |qs| == |ps|
    ensures forall k :: 0 <= k < |ps| ==> qs[k] == Step(ps[k], width, height)
  {
    seq(|ps|, k requires 0 <= k < |ps| => Step(ps[k], width, height))
  }

  /** Every particle of the array keeps to the band around the canvas. */
  predicate AllBanded(ps: seq<Particle>, width: real, height: real) {
    forall k :: 0 <= k < |ps| ==> Banded(ps[k], width, height)
  }

  /**
   * Freshly created particles all lie on the canvas, so they start inside the
   * band, and one frame's update keeps the whole array inside it.
   */
  lemma {:induction false} SpawnedThenStepped(draws: seq<Draw>, width: real, height: real, speed: real)
    requires forall k :: 0 <= k < |draws| ==> ValidDraw(draws[k])
    requires 0.0 <= width && 0.0 <= height
    ensures forall k :: 0 <= k < |draws| ==> Inside(Spawned(draws, width, height, speed)[k], width, height)
    ensures AllBanded(Spawned(draws, width, height, speed), width, height)
    ensures AllBanded(StepAll(Spawned(draws, width, height, speed), width, height), width, height)
  {
    var ps := Spawned(draws, width, height, speed);
    forall k | 0 <= k < |draws|
      ensures Inside(ps[k], width, height) && Banded(ps[k], width, height)
    {
      SpawnBounds(draws[k], width, height, speed);
    }
  }

  /** A particle after `n` frames on a canvas of fixed size. */
  function StepN(p: Particle, width: real, height: real, n: nat): Particle {
    if n == 0 then p else Step(StepN(p, width, height, n - 1), width, height)
  }

  /** The band invariant, the speed magnitudes and the radius survive any number of frames. */
  lemma {:induction false} BandPersists(p: Particle, width: real, height: real, n: nat)
    requires 0.0 <= width && 0.0 <= height && Banded(p, width, height)
    ensures var q := StepN(p, width, height, n);
      && Banded(q, width, height)
      && Abs(q.speedX) == Abs(p.speedX) && Abs(q.speedY) == Abs(p.speedY)
      && q.radius == p.radius
  {
    if n > 0 {
      BandPersists(p, width, height, n - 1);
    }
  }

  /**
   * A particle that starts on the canvas never strays more than one speed
   * step (of its initial speed) outside it, however many frames pass while
   * the canvas size stays the same.
   */
  lemma StaysNearCanvas(p: Particle, width: real, height: real, n: nat)
    requires 0.0 <= width && 0.0 <= height && Inside(p, width, height)
    ensures var q := StepN(p, width, height, n);
      && -Abs(p.speedX) <= q.x <= width + Abs(p.speedX)
      && -Abs(p.speedY) <= q.y <= height + Abs(p.speedY)
  {
    BandPersists(p, width, height, n);
  }

  /**
   * The reflection only flips the sign; it does not turn a particle back
   * towards the canvas. One left more than a speed step beyond the right
   * edge (after the canvas shrank) bounces between two positions outside it.
   */
  lemma FarParticleOscillates(p: Particle, width: real, height: real)
    requires p.x > width && p.x + p.speedX > width
    requires 0.0 <= p.y <= height && p.speedY == 0.0
    ensures Step(p, width, height).x > width
    ensures Step(Step(p, width, height), width, height) == p
  {
  }

  /** ... and so it stays outside the canvas for every later frame. */
  lemma {:induction false} FarParticleNeverReturns(p: Particle, width: real, height: real, n: nat)
    requires p.x > width && p.x + p.speedX > width
    requires 0.0 <= p.y <= height && p.speedY == 0.0
    ensures StepN(p, width, height, n) == if n % 2 == 0 then p else Step(p, width, height)
    ensures StepN(p, width, height, n).x > width
  {
    FarParticleOscillates(p, width, height);
    if n > 0 {
      FarParticleNeverReturns(p, width, height, n - 1);
    }
  }

  /**
   * The bounce as evidently intended: a speed component is turned back
   * towards the canvas (made positive left of or above it, negative right of
   * or below it) instead of having its sign flipped.
   */
  function StepInward(p: Particle, width: real, height: real): (q: Particle)
    ensures q.x == p.x + p.speedX && q.y == p.y + p.speedY
    ensures q.x < 0.0 ==> q.speedX == Abs(p.speedX)
    ensures q.x > width && 0.0 <= width ==> q.speedX == -Abs(p.speedX)
    ensures 0.0 <= q.x <= width ==> q.speedX == p.speedX
    ensures q.y < 0.0 ==> q.speedY == Abs(p.speedY)
    ensures q.y > height && 0.0 <= height ==> q.speedY == -Abs(p.speedY)
    ensures 0.0 <= q.y <= height ==> q.speedY == p.speedY
    ensures q.radius == p.radius
  {
    var x := p.x + p.speedX;
    var y := p.y + p.speedY;
    Particle(
      x,
      y,
      if x < 0.0 then Abs(p.speedX) else if x > width then -Abs(p.speedX) else p.speedX,
      if y < 0.0 then Abs(p.speedY) else if y > height then -Abs(p.speedY) else p.speedY,
      p.radius)
  }

  /** A particle after `n` frames of the intended bounce. */
  function StepInwardN(p: Particle, width: real, height: real, n: nat): Particle
    decreases n
  {
    if n == 0 then p else StepInwardN(StepInward(p, width, height), width, height, n - 1)
  }

  /**
   * Inside the band, where every particle of a fixed-size canvas stays, the
   * intended bounce and the code's bounce are the same step: the two differ
   * only for particles the canvas left behind when it shrank.
   */
  lemma InwardAgreesInBand(p: Particle, width: real, height: real)
    requires 0.0 <= width && 0.0 <= height && Banded(p, width, height)
    ensures StepInward(p, width, height) == Step(p, width, height)
  {
  }

  /** Heading left from beyond the right edge, the intended bounce keeps heading left until it is back. */
  lemma {:induction false} HeadingInwardReturns(p: Particle, width: real, height: real, n: nat) returns (k: nat)
    requires 0.0 <= width && p.x > width && p.speedX < 0.0
    requires p.x + (n as real) * p.speedX <= width
    ensures k <= n && StepInwardN(p, width, height, k).x <= width
    decreases n
  {
    var q := StepInward(p, width, height);
    assert n != 0;
    if q.x <= width {
      k := 1;
    } else {
      assert q.speedX == p.speedX;
      assert q.x + ((n - 1) as real) * q.speedX == p.x + (n as real) * p.speedX;
      var j := HeadingInwardReturns(q, width, height, n - 1);
      k := j + 1;
    }
  }

  /**
   * With the intended bounce, a particle any distance beyond the right edge
   * comes back within `n` frames once `n - 2` steps of its speed cover the
   * distance; compare `FarParticleNeverReturns` for the code's bounce.
   */
  lemma InwardReturns(p: Particle, width: real, height: real, n: nat) returns (k: nat)
    requires 0.0 <= width && p.x > width && p.speedX != 0.0
    requires p.x - width <= (n as real - 2.0) * Abs(p.speedX)
    ensures k <= n && StepInwardN(p, width, height, k).x <= width
  {
    var m := n as real;
    if p.speedX < 0.0 {
      assert Abs(p.speedX) == -p.speedX;
      ReachWithin(p.x, width, p.speedX, m);
      k := HeadingInwardReturns(p, width, height, n);
    } else {
      assert Abs(p.speedX) == p.speedX;
      var q := OutwardTurns(p, width, height);
      TurnedReach(p.x, width, p.speedX, m);
      assert 1 <= n && ((n - 1) as real) == m - 1.0;
      var j := HeadingInwardReturns(q, width, height, n - 1);
      k := j + 1;
    }
  }

  /** A particle past the right edge and heading away turns back on its next step. */
  lemma OutwardTurns(p: Particle, width: real, height: real) returns (q: Particle)
    requires 0.0 <= width && p.x > width && p.speedX > 0.0
    ensures q == StepInward(p, width, height)
    ensures q.x > width && q.speedX == -p.speedX && q.x - width == p.x - width + p.speedX
  {
    q := StepInward(p, width, height);
  }

  /** A gap of at most `m - 2` steps of a rightward speed is closed by one step out and `m - 1` steps back. */
  lemma TurnedReach(x: real, width: real, speed: real, m: real)
    requires 0.0 < speed && 0.0 < x - width <= (m - 2.0) * speed
    ensures 2.0 < m && (x + speed) + (m - 1.0) * -speed <= width
  {
    assert (m - 1.0) * -speed == -((m - 2.0) * speed) - speed;
  }

  /** A gap of at most `m - 2` steps of a leftward speed is closed within `m` such steps. */
  lemma ReachWithin(x: real, width: real, speed: real, m: real)
    requires speed < 0.0 && x - width <= (m - 2.0) * -speed
    ensures x + m * speed <= width
  {
    assert m * speed == (m - 2.0) * speed + 2.0 * speed;
  }


  // ---------------------------------------------------------------- lines

  datatype Point = Point(x: real, y: real)

  function At(p: Particle): Point { Point(p.x, p.y) }

  /** Stands for `Math.sqrt`, which is never negative. */
  type Root = f: real -> real | forall t :: 0.0 <= f(t) witness (t: real) => 0.0

  /** `Math.sqrt(dx * dx + dy * dy)`. */
  function Distance(root: Root, a: Point, b: Point): (d: real)
    ensures 0.0 <= d
  {
    root((a.x - b.x) * (a.x - b.x) + (a.y - b.y) * (a.y - b.y))
  }

  /** The stroke alpha `(1 - distance / threshold) * opacity`. */
  function Fade(d: real, threshold: real, opacity: real): (alpha: real)
    requires threshold != 0.0
    ensures d == 0.0 ==> alpha == opacity
    ensures d == threshold ==> alpha == 0.0
    ensures 0.0 < opacity && d < threshold && 0.0 < threshold ==> 0.0 < alpha
  {
    var f := 1.0 - d / threshold;
    if 0.0 < opacity && d < threshold && 0.0 < threshold then
      QuotientBelowOne(d, threshold);
      f * opacity
    else
      f * opacity
  }

  /** A value below a positive threshold is less than one threshold's worth of it. */
  lemma QuotientBelowOne(d: real, threshold: real)
    requires d < threshold && 0.0 < threshold
    ensures d / threshold < 1.0
  {
    var q := d / threshold;
    assert q * threshold == d;
    assert (1.0 - q) * threshold == threshold - d;
  }

  /** A line closer than the threshold gets an alpha in `(0, opacity]`. */
  lemma FadeRange(d: real, threshold: real, opacity: real)
    requires 0.0 <= d < threshold && 0.0 < opacity
    ensures 0.0 < Fade(d, threshold, opacity) <= opacity
  {
    var f := 1.0 - d / threshold;
    QuotientBelowOne(d, threshold);
    assert 0.0 <= d / threshold;
    assert 0.0 < f <= 1.0;
    assert f * opacity <= 1.0 * opacity;
  }

  lemma SquareBelow(d: real, t: real)
    requires 0.0 <= d < t
    ensures d * d < t * t
  {
    var e := t - d;
    assert t * t == d * d + 2.0 * d * e + e * e;
    assert 0.0 <= d * e;
    assert 0.0 < e * e;
  }

  lemma SquareMonotone(d: real, threshold: real)
    requires 0.0 <= d && 0.0 < threshold
    ensures d < threshold <==> d * d < threshold * threshold
  {
    if d < threshold {
      SquareBelow(d, threshold);
    } else if threshold < d {
      SquareBelow(threshold, d);
    }
  }

  /**
   * Comparing the square root with the threshold is comparing the squared
   * distance with the squared threshold, whenever the root is exact.
   */
  lemma CloserIffSquareCloser(root: Root, t: real, threshold: real)
    requires 0.0 <= t && root(t) * root(t) == t && 0.0 < threshold
    ensures root(t) < threshold <==> t < threshold * threshold
  {
    SquareMonotone(root(t), threshold);
  }

  /** One stroked line of a frame: between particles `i < j`, or from particle `i` to the pointer. */
  datatype Segment = Between(i: nat, j: nat, alpha: real) | ToPointer(i: nat, alpha: real)

  /** Pieces laid end to end, first to last. */
  function Flatten(pieces: seq<seq<Segment>>): seq<Segment> {
    if pieces == [] then [] else Flatten(pieces[..|pieces| - 1]) + pieces[|pieces| - 1]
  }

  /** The line, if any, the inner loop draws for particles `i` and `j`. */
  function PairSegment(ps: seq<Particle>, i: nat, j: nat, o: Options, root: Root): (r: seq<Segment>)
    requires i < j < |ps|
    ensures |r| <= 1
    ensures r != [] <==> Distance(root, At(ps[i]), At(ps[j])) < o.lineDistance
    ensures r != [] ==> r[0].Between? && r[0].i == i && r[0].j == j
  {
    var d := Distance(root, At(ps[i]), At(ps[j]));
    if d < o.lineDistance then [Between(i, j, Fade(d, o.lineDistance, o.opacity))] else []
  }

  /** What the inner loop draws for particle `i` at each partner `i < j < k`, one piece per partner. */
  function PairCells(ps: seq<Particle>, i: nat, k: nat, o: Options, root: Root): (cells: seq<seq<Segment>>)
    requires i < k <= |ps|
    ensures |cells| == k - i - 1
    ensures forall t :: 0 <= t < |cells| ==> cells[t] == PairSegment(ps, i, i + 1 + t, o, root)
    decreases k
  {
    if k == i + 1 then [] else PairCells(ps, i, k - 1, o, root) + [PairSegment(ps, i, k - 1, o, root)]
  }

  /** The lines the inner loop draws for particle `i` and the partners `i < j < k`, in order. */
  function PairSegments(ps: seq<Particle>, i: nat, k: nat, o: Options, root: Root): seq<Segment>
    requires i < k <= |ps|
  {
    Flatten(PairCells(ps, i, k, o, root))
  }

  /** The line, if any, from particle `i` to the pointer, with the threshold widened by half. */
  function PointerSegment(ps: seq<Particle>, i: nat, mouse: Point, o: Options, root: Root): (r: seq<Segment>)
    requires i < |ps|
    ensures |r| <= 1
    ensures r != [] <==> Distance(root, At(ps[i]), mouse) < o.lineDistance * 1.5
    ensures r != [] ==> r[0].ToPointer? && r[0].i == i
  {
    var d := Distance(root, At(ps[i]), mouse);
    var reach := o.lineDistance * 1.5;
    if d < reach then [ToPointer(i, Fade(d, reach, o.opacity))] else []
  }

  /** Everything the outer loop draws for particle `i`: its pairs, then its pointer line. */
  function Row(ps: seq<Particle>, i: nat, mouse: Point, o: Options, root: Root): seq<Segment>
    requires i < |ps|
  {
    PairSegments(ps, i, |ps|, o, root) + PointerSegment(ps, i, mouse, o, root)
  }

  /** The rows of the first `n` rounds of the outer loop. */
  function Rows(ps: seq<Particle>, n: nat, mouse: Point, o: Options, root: Root): (rows: seq<seq<Segment>>)
    requires n <= |ps|
    ensures |rows| == n
    ensures forall i :: 0 <= i < n ==> rows[i] == Row(ps, i, mouse, o, root)
  {
    seq(n, i requires 0 <= i < n => Row(ps, i, mouse, o, root))
  }

  /** The lines drawn by the first `n` rounds of the outer loop, in drawing order. */
  function Lines(ps: seq<Particle>, n: nat, mouse: Point, o: Options, root: Root): seq<Segment>
    requires n <= |ps|
  {
    Flatten(Rows(ps, n, mouse, o, root))
  }

  /**
   * The reference definition of a frame's lines, free of loop order: a line
   * between `i < j` exactly when they are closer than `lineDistance`, a line
   * to the pointer exactly when the particle is closer than
   * `1.5 * lineDistance`, each with its linear fade.
   */
  predicate Expected(ps: seq<Particle>, mouse: Point, o: Options, root: Root, s: Segment) {
    match s
    case Between(i, j, a) =>
      && i < j < |ps|
      && Distance(root, At(ps[i]), At(ps[j])) < o.lineDistance
      && a == Fade(Distance(root, At(ps[i]), At(ps[j])), o.lineDistance, o.opacity)
    case ToPointer(i, a) =>
      && i < |ps|
      && Distance(root, At(ps[i]), mouse) < o.lineDistance * 1.5
      && a == Fade(Distance(root, At(ps[i]), mouse), o.lineDistance * 1.5, o.opacity)
  }

  /** Drawing order: by the first particle, then by partner, the pointer line last (`n` = particle count). */
  function Second(s: Segment, n: nat): nat {
    match s
    case Between(_, j, _) => j
    case ToPointer(_, _) => n
  }

  predicate Before(a: Segment, b: Segment, n: nat) {
    a.i < b.i || (a.i == b.i && Second(a, n) < Second(b, n))
  }

  /** Strictly increasing in drawing order, so no pair and no pointer line appears twice. */
  predicate Ordered(segs: seq<Segment>, n: nat) {
    forall p, q :: 0 <= p < q < |segs| ==> Before(segs[p], segs[q], n)
  }

  /** Every line of an earlier piece comes before every line of a later one. */
  predicate Ascending(pieces: seq<seq<Segment>>, n: nat) {
    forall k, l, x, y :: 0 <= k < l < |pieces| && x in pieces[k] && y in pieces[l] ==> Before(x, y, n)
  }

  lemma OrderedConcat(a: seq<Segment>, b: seq<Segment>, n: nat)
    requires Ordered(a, n) && Ordered(b, n)
    requires forall x, y :: x in a && y in b ==> Before(x, y, n)
    ensures Ordered(a + b, n)
  {
    forall p, q | 0 <= p < q < |a + b|
      ensures Before((a + b)[p], (a + b)[q], n)
    {
      if q < |a| {
        assert (a + b)[p] == a[p] && (a + b)[q] == a[q];
      } else if p < |a| {
        assert (a + b)[p] in a && (a + b)[q] in b;
      } else {
        assert (a + b)[p] == b[p - |a|] && (a + b)[q] == b[q - |a|];
      }
    }
  }

  /** Laying out one more piece appends it. */
  lemma FlattenLast(pieces: seq<seq<Segment>>)
    requires pieces != []
    ensures Flatten(pieces) == Flatten(pieces[..|pieces| - 1]) + pieces[|pieces| - 1]
  {
  }

  /** A line of pieces laid end to end comes from one of the pieces: the piece `t` it comes from. */
  lemma {:induction false} FlattenWhich(pieces: seq<seq<Segment>>, s: Segment) returns (t: nat)
    requires s in Flatten(pieces)
    ensures t < |pieces| && s in pieces[t]
  {
    var front := pieces[..|pieces| - 1];
    if s in pieces[|pieces| - 1] {
      t := |pieces| - 1;
    } else {
      t := FlattenWhich(front, s);
      assert front[t] == pieces[t];
    }
  }

  /** Every line of every piece is among the pieces laid end to end. */
  lemma {:induction false} FlattenHas(pieces: seq<seq<Segment>>, t: nat, s: Segment)
    requires t < |pieces| && s in pieces[t]
    ensures s in Flatten(pieces)
  {
    if t < |pieces| - 1 {
      var front := pieces[..|pieces| - 1];
      assert front[t] == pieces[t];
      FlattenHas(front, t, s);
    }
  }

  /** Pieces each in drawing order, and in drawing order among themselves, lay end to end in drawing order. */
  lemma {:induction false} FlattenOrdered(pieces: seq<seq<Segment>>, n: nat)
    requires Ascending(pieces, n)
    requires forall k :: 0 <= k < |pieces| ==> Ordered(pieces[k], n)
    ensures Ordered(Flatten(pieces), n)
  {
    if pieces != [] {
      var front := pieces[..|pieces| - 1];
      var last := pieces[|pieces| - 1];
      assert Ascending(front, n) by {
        forall k, l, x, y | 0 <= k < l < |front| && x in front[k] && y in front[l] ensures Before(x, y, n) {
          assert x in pieces[k] && y in pieces[l];
        }
      }
      forall k | 0 <= k < |front| ensures Ordered(front[k], n) {
        assert front[k] == pieces[k];
      }
      FlattenOrdered(front, n);
      forall x, y | x in Flatten(front) && y in last ensures Before(x, y, n) {
        var t := FlattenWhich(front, x);
        assert x in pieces[t] && y in pieces[|pieces| - 1];
      }
      OrderedConcat(Flatten(front), last, n);
    }
  }

  /** The inner loop's step for partner `j` draws exactly the expected pair `(i, j)`, if any. */
  lemma PairSegmentMember(ps: seq<Particle>, i: nat, j: nat, mouse: Point, o: Options, root: Root, s: Segment)
    requires i < j < |ps|
    ensures s in PairSegment(ps, i, j, o, root) <==>
      (s.Between? && s.i == i && s.j == j && Expected(ps, mouse, o, root, s))
  {
  }

  /** One more step of the inner loop appends the pair `(i, j)`'s line, if any. */
  lemma PairSegmentsNext(ps: seq<Particle>, i: nat, j: nat, o: Options, root: Root)
    requires i < j < |ps|
    ensures PairSegments(ps, i, j + 1, o, root) == PairSegments(ps, i, j, o, root) + PairSegment(ps, i, j, o, root)
  {
    var cells := PairCells(ps, i, j + 1, o, root);
    assert cells[..|cells| - 1] == PairCells(ps, i, j, o, root);
    FlattenLast(cells);
  }

  /** The pointer step for particle `i` draws exactly its expected pointer line, if any. */
  lemma PointerSegmentMember(ps: seq<Particle>, i: nat, mouse: Point, o: Options, root: Root, s: Segment)
    requires i < |ps|
    ensures s in PointerSegment(ps, i, mouse, o, root) <==>
      (s.ToPointer? && s.i == i && Expected(ps, mouse, o, root, s))
  {
  }

  /** The inner loop's lines for particle `i` are exactly the expected pairs `(i, j)` with `j < k`. */
  lemma PairSegmentsMember(ps: seq<Particle>, i: nat, k: nat, mouse: Point, o: Options, root: Root, s: Segment)
    requires i < k <= |ps|
    ensures s in PairSegments(ps, i, k, o, root) <==>
      (s.Between? && s.i == i && s.j < k && Expected(ps, mouse, o, root, s))
  {
    if s in PairSegments(ps, i, k, o, root) {
      PairSegmentsSound(ps, i, k, mouse, o, root, s);
    }
    if s.Between? && s.i == i && s.j < k && Expected(ps, mouse, o, root, s) {
      PairSegmentsComplete(ps, i, k, mouse, o, root, s);
    }
  }

  /** Every line the inner loop draws is an expected pair line of particle `i`. */
  lemma PairSegmentsSound(ps: seq<Particle>, i: nat, k: nat, mouse: Point, o: Options, root: Root, s: Segment)
    requires i < k <= |ps| && s in PairSegments(ps, i, k, o, root)
    ensures s.Between? && s.i == i && s.j < k && Expected(ps, mouse, o, root, s)
  {
    var t := FlattenWhich(PairCells(ps, i, k, o, root), s);
    PairSegmentMember(ps, i, i + 1 + t, mouse, o, root, s);
  }

  /** Every expected pair line of particle `i` with partner below `k` is drawn by the inner loop. */
  lemma PairSegmentsComplete(ps: seq<Particle>, i: nat, k: nat, mouse: Point, o: Options, root: Root, s: Segment)
    requires i < k <= |ps| && s.Between? && s.i == i && s.j < k && Expected(ps, mouse, o, root, s)
    ensures s in PairSegments(ps, i, k, o, root)
  {
    PairSegmentMember(ps, i, s.j, mouse, o, root, s);
    FlattenHas(PairCells(ps, i, k, o, root), s.j - i - 1, s);
  }

  /** The line, if any, of the pair `(i, j)` joins `i` to `j`. */
  lemma PairSegmentShape(ps: seq<Particle>, i: nat, j: nat, o: Options, root: Root)
    requires i < j < |ps|
    ensures |PairSegment(ps, i, j, o, root)| <= 1
    ensures forall x :: x in PairSegment(ps, i, j, o, root) ==> x.Between? && x.i == i && x.j == j
  {
  }

  /** The inner loop's cell for partner `i + 1 + t` holds at most its own pair's line. */
  lemma PairCellShape(ps: seq<Particle>, i: nat, k: nat, o: Options, root: Root, t: nat)
    requires i < k <= |ps| && t < k - i - 1
    ensures var cell := PairCells(ps, i, k, o, root)[t];
      |cell| <= 1 && forall x :: x in cell ==> x.Between? && x.i == i && x.j == i + 1 + t
  {
    PairSegmentShape(ps, i, i + 1 + t, o, root);
  }

  /** The inner loop's cells for particle `i` come by increasing partner, one line at most each. */
  lemma PairCellsAscending(ps: seq<Particle>, i: nat, k: nat, o: Options, root: Root)
    requires i < k <= |ps|
    ensures Ascending(PairCells(ps, i, k, o, root), |ps|)
    ensures forall t :: 0 <= t < k - i - 1 ==> Ordered(PairCells(ps, i, k, o, root)[t], |ps|)
  {
    var cells := PairCells(ps, i, k, o, root);
    forall a, b, x, y | 0 <= a < b < |cells| && x in cells[a] && y in cells[b]
      ensures Before(x, y, |ps|)
    {
      PairCellShape(ps, i, k, o, root, a);
      PairCellShape(ps, i, k, o, root, b);
    }
    forall t | 0 <= t < |cells| ensures Ordered(cells[t], |ps|) {
      PairCellShape(ps, i, k, o, root, t);
    }
  }

  /** The inner loop draws its lines for particle `i` by increasing partner `j < k`. */
  lemma PairSegmentsOrdered(ps: seq<Particle>, i: nat, k: nat, o: Options, root: Root)
    requires i < k <= |ps|
    ensures Ordered(PairSegments(ps, i, k, o, root), |ps|)
  {
    PairCellsAscending(ps, i, k, o, root);
    FlattenOrdered(PairCells(ps, i, k, o, root), |ps|);
  }

  /** Particle `i`'s round of the outer loop draws exactly its expected lines. */
  lemma RowMember(ps: seq<Particle>, i: nat, mouse: Point, o: Options, root: Root, s: Segment)
    requires i < |ps|
    ensures s in Row(ps, i, mouse, o, root) <==> (s.i == i && Expected(ps, mouse, o, root, s))
  {
    PairSegmentsMember(ps, i, |ps|, mouse, o, root, s);
  }

  /** Particle `i`'s round draws its pair lines in order, then its pointer line. */
  lemma RowOrdered(ps: seq<Particle>, i: nat, mouse: Point, o: Options, root: Root)
    requires i < |ps|
    ensures Ordered(Row(ps, i, mouse, o, root), |ps|)
    ensures forall s :: s in Row(ps, i, mouse, o, root) ==> s.i == i
  {
    PairSegmentsOrdered(ps, i, |ps|, o, root);
    var pairs := PairSegments(ps, i, |ps|, o, root);
    var pointer := PointerSegment(ps, i, mouse, o, root);
    forall x, y | x in pairs && y in pointer ensures Before(x, y, |ps|) {
      PairSegmentsMember(ps, i, |ps|, mouse, o, root, x);
    }
    OrderedConcat(pairs, pointer, |ps|);
    forall s | s in Row(ps, i, mouse, o, root) ensures s.i == i {
      PairSegmentsMember(ps, i, |ps|, mouse, o, root, s);
    }
  }

  /** One more round of the outer loop appends particle `i`'s row. */
  lemma LinesNext(ps: seq<Particle>, i: nat, mouse: Point, o: Options, root: Root)
    requires i < |ps|
    ensures Lines(ps, i + 1, mouse, o, root) == Lines(ps, i, mouse, o, root) + Row(ps, i, mouse, o, root)
  {
    var rows := Rows(ps, i + 1, mouse, o, root);
    assert rows[..i] == Rows(ps, i, mouse, o, root);
  }

  /** The first `n` rounds draw exactly the expected lines of particles below `n`. */
  lemma LinesMember(ps: seq<Particle>, n: nat, mouse: Point, o: Options, root: Root, s: Segment)
    requires n <= |ps|
    ensures s in Lines(ps, n, mouse, o, root) <==> (s.i < n && Expected(ps, mouse, o, root, s))
  {
    var rows := Rows(ps, n, mouse, o, root);
    if s in Lines(ps, n, mouse, o, root) {
      var t := FlattenWhich(rows, s);
      RowMember(ps, t, mouse, o, root, s);
    }
    if s.i < n && Expected(ps, mouse, o, root, s) {
      RowMember(ps, s.i, mouse, o, root, s);
      FlattenHas(rows, s.i, s);
    }
  }

  /** The first `n` rounds draw their lines in drawing order, none twice. */
  lemma LinesOrdered(ps: seq<Particle>, n: nat, mouse: Point, o: Options, root: Root)
    requires n <= |ps|
    ensures Ordered(Lines(ps, n, mouse, o, root), |ps|)
  {
    var rows := Rows(ps, n, mouse, o, root);
    forall t | 0 <= t < n ensures Ordered(rows[t], |ps|) {
      RowOrdered(ps, t, mouse, o, root);
    }
    assert Ascending(rows, |ps|) by {
      forall a, b, x, y | 0 <= a < b < n && x in rows[a] && y in rows[b] ensures Before(x, y, |ps|) {
        RowOrdered(ps, a, mouse, o, root);
        RowOrdered(ps, b, mouse, o, root);
      }
    }
    FlattenOrdered(rows, |ps|);
  }

  /**
   * A whole frame: every unordered pair `i < j` closer than `lineDistance`
   * and every particle closer than `1.5 * lineDistance` to the pointer gets
   * exactly one line, with its linear fade, and nothing else is drawn.
   */
  lemma FrameSpec(ps: seq<Particle>, mouse: Point, o: Options, root: Root)
    ensures forall s :: s in Lines(ps, |ps|, mouse, o, root) <==> Expected(ps, mouse, o, root, s)
    ensures Ordered(Lines(ps, |ps|, mouse, o, root), |ps|)
  {
    forall s ensures s in Lines(ps, |ps|, mouse, o, root) <==> Expected(ps, mouse, o, root, s) {
      LinesMember(ps, |ps|, mouse, o, root, s);
    }
    LinesOrdered(ps, |ps|, mouse, o, root);
  }

  /** With a positive opacity every line of a frame is visible but no more opaque than `opacity`. */
  lemma FrameAlphas(ps: seq<Particle>, mouse: Point, o: Options, root: Root)
    requires 0.0 < o.opacity
    ensures forall s :: s in Lines(ps, |ps|, mouse, o, root) ==> 0.0 < s.alpha <= o.opacity
  {
    forall s | s in Lines(ps, |ps|, mouse, o, root)
      ensures 0.0 < s.alpha <= o.opacity
    {
      LinesMember(ps, |ps|, mouse, o, root, s);
      match s
      case Between(i, j, a) =>
        FadeRange(Distance(root, At(ps[i]), At(ps[j])), o.lineDistance, o.opacity);
      case ToPointer(i, a) =>
        FadeRange(Distance(root, At(ps[i]), mouse), o.lineDistance * 1.5, o.opacity);
    }
  }

  // ---------------------------------------------------------------- colour

  /** `color.split(',').map(num => parseInt(num.trim()))`, `None` standing for `NaN`. */
  function StrokeRgb(color: string): (rgb: seq<Option<int>>)
    ensures |rgb| == |Split(color, ',')|
  {
    var parts := Split(color, ',');
    seq(|parts|, k requires 0 <= k < |parts| => ParseInt(Trim(parts[k])))
  }

  predicate AllWhite(s: string) { forall k :: 0 <= k < |s| ==> IsWhite(s[k]) }

  /** Leading white space before a character that is not white is what `trimStart` drops. */
  lemma TrimStartPadded(left: string, rest: string)
    requires AllWhite(left) && rest != [] && !IsWhite(rest[0])
    ensures TrimStart(left + rest) == rest
  {
    var s := left + rest;
    var a := TrimStart(s);
    assert s[|left|] == rest[0];
    assert |s| - |a| <= |left|;
    assert a[0] == s[|s| - |a|];
  }

  /** Trailing white space after a character that is not white is what `trimEnd` drops. */
  lemma TrimEndPadded(rest: string, right: string)
    requires AllWhite(right) && rest != [] && !IsWhite(rest[|rest| - 1])
    ensures TrimEnd(rest + right) == rest
  {
    var s := rest + right;
    var b := TrimEnd(s);
    assert s[|rest| - 1] == rest[|rest| - 1];
    assert |rest| <= |b|;
    assert b[|b| - 1] == s[|b| - 1];
  }

  /** White space around a word that neither starts nor ends with white space is what `trim` drops. */
  lemma TrimPadded(left: string, word: string, right: string)
    requires AllWhite(left) && AllWhite(right)
    requires word != [] && !IsWhite(word[0]) && !IsWhite(word[|word| - 1])
    ensures Trim(left + word + right) == word
  {
    assert left + word + right == left + (word + right);
    TrimStartPadded(left, word + right);
    TrimEndPadded(word, right);
  }

  /** A padded decimal number holds no comma. */
  lemma PaddedHasNoComma(left: string, word: string, right: string)
    requires AllWhite(left) && AllWhite(right) && AllDigits(word)
    ensures ',' !in left + word + right
  {
    var s := left + word + right;
    forall c | 0 <= c < |s| ensures s[c] != ',' {
      if c < |left| {
        assert s[c] == left[c];
      } else if c < |left| + |word| {
        assert s[c] == word[c - |left|];
      } else {
        assert s[c] == right[c - |left| - |word|];
      }
    }
  }

  /** One padded decimal entry holds no comma and parses back to its number. */
  lemma EntryRoundTrip(left: string, value: nat, right: string)
    requires AllWhite(left) && AllWhite(right)
    ensures ',' !in left + NatToString(value) + right
    ensures ParseInt(Trim(left + NatToString(value) + right)) == Some(value as int)
  {
    PaddedHasNoComma(left, NatToString(value), right);
    TrimPadded(left, NatToString(value), right);
    ParseNatToString(value);
  }

  /**
   * Any list of numbers written "R,G,B"-style, each entry possibly padded
   * with white space, splits back into exactly those numbers.
   */
  lemma ColorRoundTrip(values: seq<nat>, left: seq<string>, right: seq<string>)
    requires |values| >= 1 && |left| == |values| && |right| == |values|
    requires forall k :: 0 <= k < |values| ==> AllWhite(left[k]) && AllWhite(right[k])
    ensures var parts := seq(|values|, k requires 0 <= k < |values| => left[k] + NatToString(values[k]) + right[k]);
      StrokeRgb(Join(parts, ',')) == seq(|values|, k requires 0 <= k < |values| => Some(values[k] as int))
  {
    var parts := seq(|values|, k requires 0 <= k < |values| => left[k] + NatToString(values[k]) + right[k]);
    var expected := seq(|values|, k requires 0 <= k < |values| => Some(values[k] as int));
    forall k | 0 <= k < |values|
      ensures ',' !in parts[k] && ParseInt(Trim(parts[k])) == expected[k]
    {
      EntryRoundTrip(left[k], values[k], right[k]);
    }
    SplitJoin(parts, ',');
    var rgb := StrokeRgb(Join(parts, ','));
    forall k | 0 <= k < |values| ensures rgb[k] == expected[k] {
    }
  }

  /** The default colour "100,149,237" strokes as the three numbers 100, 149 and 237. */
  lemma DefaultsDraw()
    ensures StrokeRgb(Defaults().color) == [Some(100), Some(149), Some(237)]
  {
    ParsesBack(100);
    ParsesBack(149);
    ParsesBack(237);
    DefaultColorJoin();
    StrokeOfThree(NatToString(100), NatToString(149), NatToString(237), 100, 149, 237);
  }

  /** Three comma-free parts that each parse back to a number stroke as those three numbers. */
  lemma StrokeOfThree(a: string, b: string, c: string, x: int, y: int, z: int)
    requires ',' !in a && ParseInt(Trim(a)) == Some(x)
    requires ',' !in b && ParseInt(Trim(b)) == Some(y)
    requires ',' !in c && ParseInt(Trim(c)) == Some(z)
    ensures StrokeRgb(Join([a, b, c], ',')) == [Some(x), Some(y), Some(z)]
  {
    StrokeOfParts(Join([a, b, c], ','), [a, b, c], [Some(x), Some(y), Some(z)]);
  }

  /** The default colour is its three components, spelled in decimal, joined with commas. */
  lemma DefaultColorJoin()
    ensures Join([NatToString(100), NatToString(149), NatToString(237)], ',') == Defaults().color
  {
    DefaultDigits();
    var text: seq<string> := ["100", "149", "237"];
    assert text[..2] == ["100", "149"] && text[..2][..1] == ["100"];
    assert Join(text, ',') == Defaults().color;
  }

  /** The decimal spelling of a number holds no comma and strokes as that number. */
  lemma ParsesBack(n: nat)
    ensures ',' !in NatToString(n) && ParseInt(Trim(NatToString(n))) == Some(n as int)
  {
    EntryRoundTrip("", n, "");
    assert "" + NatToString(n) + "" == NatToString(n);
  }

  /** Comma-free parts that each parse to a value, joined with commas, stroke as those values. */
  lemma StrokeOfParts(color: string, text: seq<string>, numbers: seq<Option<int>>)
    requires |text| == |numbers| >= 1 && color == Join(text, ',')
    requires forall k :: 0 <= k < |text| ==> ',' !in text[k] && ParseInt(Trim(text[k])) == numbers[k]
    ensures StrokeRgb(color) == numbers
  {
    SplitJoin(text, ',');
  }

  /** The spellings of the three default colour components. */
  lemma DefaultDigits()
    ensures NatToString(100) == "100" && NatToString(149) == "149" && NatToString(237) == "237"
  {
    ThreeDigits(100);
    ThreeDigits(149);
    ThreeDigits(237);
  }

  /** The decimal spelling of a three-digit number, digit by digit. */
  lemma ThreeDigits(n: nat)
    requires 100 <= n < 1000
    ensures NatToString(n) == [DigitChar(n / 100), DigitChar(n / 10 % 10), DigitChar(n % 10)]
  {
    assert n / 10 / 10 == n / 100;
    assert NatToString(n / 10) == NatToString(n / 100) + [DigitChar(n / 10 % 10)];
  }
}
