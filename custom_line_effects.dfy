/**
 * The `CustomLineEffects` object: a particle field drawn over the page,
 * with lines between nearby particles and from particles to the pointer.
 * Canvas drawing, scheduling and event registration are host I/O; what is
 * kept is the object's state and the lines each frame draws.
 */
module LineEffects {
  import opened Wrappers
  import opened ParticleRules

  /** What one frame strokes: the parsed stroke colour and the lines, in drawing order. */
  datatype Frame = Frame(rgb: seq<Option<int>>, lines: seq<Segment>)

  /** What `getStatus()` reports. */
  datatype Status = Status(initialized: bool, options: Options, particlesCount: nat)

  class CustomLineEffects {
    var options: Options
    var particles: seq<Particle>
    /** The last pointer position seen, `{ x: 0, y: 0 }` until the first move. */
    var mouse: Point
    var isInitialized: bool
    /** The canvas size, copied from the viewport when the canvas is created or resized. */
    var width: nat
    var height: nat

    /** `new CustomLineEffects(options)`: the defaults overridden by the caller's keys, nothing running. */
    constructor (patch: OptionsPatch)
      ensures options == Merge(Defaults(), patch)
      ensures particles == [] && mouse == Point(0.0, 0.0) && !isInitialized
      ensures width == 0 && height == 0
    {
      options := Merge(Defaults(), patch);
      particles := [];
      mouse := Point(0.0, 0.0);
      isInitialized := false;
      width, height := 0, 0;
    }

    /**
     * `createParticles()`: replaces the array with `count` new particles,
     * one per set of random draws, all on the canvas.
     */
    method CreateParticles(draws: seq<Draw>)
      requires |draws| == ParticleTotal(options.count)
      requires forall k :: 0 <= k < |draws| ==> ValidDraw(draws[k])
      modifies this`particles
      ensures particles == Spawned(draws, width as real, height as real, options.particleSpeed)
      ensures |particles| == ParticleTotal(options.count)
      ensures forall k :: 0 <= k < |particles| ==> Inside(particles[k], width as real, height as real)
    {
      particles := [];
      var i: int := 0;
      while i < options.count
        invariant 0 <= i <= |draws|
        invariant |particles| == i
        invariant forall k :: 0 <= k < i ==>
          particles[k] == Spawn(draws[k], width as real, height as real, options.particleSpeed)
      {
        particles := particles + [Spawn(draws[i], width as real, height as real, options.particleSpeed)];
        i := i + 1;
      }
      SpawnedThenStepped(draws, width as real, height as real, options.particleSpeed);
    }

    /** `handleMouseMove(e)`: the pointer is now at the event's coordinates. */
    method HandleMouseMove(clientX: real, clientY: real)
      modifies this`mouse
      ensures mouse == Point(clientX, clientY)
    {
      mouse := Point(clientX, clientY);
    }

    /** `resizeCanvas()`: the canvas takes the viewport's size; particles are left where they are. */
    method ResizeCanvas(viewWidth: nat, viewHeight: nat)
      modifies this`width, this`height
      ensures width == viewWidth && height == viewHeight
    {
      width, height := viewWidth, viewHeight;
    }

    /**
     * `updateParticles()`: every particle moves by its speed and bounces off
     * the canvas edges; the particles that kept to the band around the
     * canvas still do.
     */
    method UpdateParticles()
      modifies this`particles
      ensures particles == StepAll(old(particles), width as real, height as real)
      ensures AllBanded(old(particles), width as real, height as real) ==>
        AllBanded(particles, width as real, height as real)
    {
      var i := 0;
      while i < |particles|
        invariant 0 <= i <= |particles| == |old(particles)|
        invariant forall k :: 0 <= k < i ==> particles[k] == Step(old(particles)[k], width as real, height as real)
        invariant forall k :: i <= k < |particles| ==> particles[k] == old(particles)[k]
      {
        var p := particles[i];
        p := p.(x := p.x + p.speedX, y := p.y + p.speedY);
        if p.x < 0.0 || p.x > width as real {
          p := p.(speedX := -p.speedX);
        }
        if p.y < 0.0 || p.y > height as real {
          p := p.(speedY := -p.speedY);
        }
        particles := particles[i := p];
        i := i + 1;
      }
    }

    /**
     * `drawLines()`: for each particle `i`, the lines to the particles
     * `j > i` closer than `lineDistance`, then its line to the pointer if
     * closer than `1.5 * lineDistance`; every line is stroked in the colour
     * split from `options.color`.
     */
    method DrawLines(root: Root) returns (frame: Frame)
      ensures frame.rgb == StrokeRgb(options.color)
      ensures frame.lines == Lines(particles, |particles|, mouse, options, root)
    {
      var segs: seq<Segment> := [];
      var i: nat := 0;
      while i < |particles|
        invariant i <= |particles|
        invariant segs == Lines(particles, i, mouse, options, root)
      {
        var pairs := PairLines(i, root);
        var pointer := PointerLine(i, root);
        assert pairs + pointer == Row(particles, i, mouse, options, root);
        LinesNext(particles, i, mouse, options, root);
        segs := segs + (pairs + pointer);
        i := i + 1;
      }
      frame := Frame(StrokeRgb(options.color), segs);
    }

    /** The inner loop of `drawLines()`: particle `i` against every later particle `j`. */
    method PairLines(i: nat, root: Root) returns (segs: seq<Segment>)
      requires i < |particles|
      ensures segs == PairSegments(particles, i, |particles|, options, root)
    {
      segs := [];
      var j: nat := i + 1;
      while j < |particles|
        invariant i + 1 <= j <= |particles|
        invariant segs == PairSegments(particles, i, j, options, root)
      {
        var distance := Distance(root, At(particles[i]), At(particles[j]));
        if distance < options.lineDistance {
          segs := segs + [Between(i, j, Fade(distance, options.lineDistance, options.opacity))];
        }
        PairSegmentsNext(particles, i, j, options, root);
        j := j + 1;
      }
    }

    /** The pointer step of `drawLines()` for particle `i`. */
    method PointerLine(i: nat, root: Root) returns (segs: seq<Segment>)
      requires i < |particles|
      ensures segs == PointerSegment(particles, i, mouse, options, root)
    {
      segs := [];
      var distance := Distance(root, At(particles[i]), mouse);
      if distance < options.lineDistance * 1.5 {
        segs := [ToPointer(i, Fade(distance, options.lineDistance * 1.5, options.opacity))];
      }
    }

    /** One call of `animate()`: update the particles, then draw the frame's lines. */
    method Animate(root: Root) returns (frame: Frame)
      modifies this`particles
      ensures particles == StepAll(old(particles), width as real, height as real)
      ensures AllBanded(old(particles), width as real, height as real) ==>
        AllBanded(particles, width as real, height as real)
      ensures frame == Frame(StrokeRgb(options.color), Lines(particles, |particles|, mouse, options, root))
    {
      UpdateParticles();
      frame := DrawLines(root);
    }

    /**
     * `init()`: a no-op when already running. Otherwise the canvas takes the
     * viewport's size, `count` particles are created, the first frame is
     * drawn (one update step included) and the effect is marked running.
     */
    method Init(viewWidth: nat, viewHeight: nat, draws: seq<Draw>, root: Root) returns (first: Option<Frame>)
      requires isInitialized || |draws| == ParticleTotal(options.count)
      requires forall k :: 0 <= k < |draws| ==> ValidDraw(draws[k])
      modifies this
      ensures old(isInitialized) ==> unchanged(this) && first == None
      ensures !old(isInitialized) ==>
        && isInitialized
        && width == viewWidth && height == viewHeight
        && options == old(options) && mouse == old(mouse)
        && particles == StepAll(Spawned(draws, width as real, height as real, options.particleSpeed),
                                width as real, height as real)
        && first == Some(Frame(StrokeRgb(options.color), Lines(particles, |particles|, mouse, options, root)))
      ensures isInitialized
      ensures !old(isInitialized) ==> |particles| == ParticleTotal(options.count)
      ensures !old(isInitialized) ==> AllBanded(particles, width as real, height as real)
    {
      if isInitialized {
        return None;
      }
      ResizeCanvas(viewWidth, viewHeight);
      CreateParticles(draws);
      SpawnedThenStepped(draws, width as real, height as real, options.particleSpeed);
      var frame := Animate(root);
      isInitialized := true;
      first := Some(frame);
    }

    /**
     * `updateOptions(newOptions)`: the options become `{ ...options,
     * ...newOptions }`; a running effect then recreates all its particles
     * with the merged `count`, whatever keys changed.
     */
    method UpdateOptions(patch: OptionsPatch, draws: seq<Draw>)
      requires !isInitialized || |draws| == ParticleTotal(Merge(options, patch).count)
      requires forall k :: 0 <= k < |draws| ==> ValidDraw(draws[k])
      modifies this`options, this`particles
      ensures options == Merge(old(options), patch)
      ensures isInitialized ==> particles == Spawned(draws, width as real, height as real, options.particleSpeed)
      ensures isInitialized ==> |particles| == ParticleTotal(options.count)
      ensures !isInitialized ==> particles == old(particles)
    {
      options := Merge(options, patch);
      if isInitialized {
        CreateParticles(draws);
      }
    }

    /** `destroy()`: the effect stops; the particle array is kept as it is. */
    method Destroy()
      modifies this`isInitialized
      ensures !isInitialized
      ensures particles == old(particles) && options == old(options)
    {
      isInitialized := false;
    }

    /** `getStatus()`: whether the effect runs, its options, and the length of the particle array. */
    method GetStatus() returns (s: Status)
      ensures s.initialized == isInitialized
      ensures s.options == options
      ensures s.particlesCount == |particles|
    {
      s := Status(isInitialized, options, |particles|);
    }
  }
}
