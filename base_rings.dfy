/**
 * The particle rings around the foot of the tree: one ring per radius multiplier, each
 * a pair of flat buffers of PARTICLES_PER_RING points at evenly spaced azimuths with a
 * jittered radius and height and a white-to-gold colour; every frame each ring spins by
 * its own rate and the group bobs.
 */
module BaseRings {
  import opened Config
  import opened Geometry
  import opened Smoothing

  const RING_COUNT: nat := |RADIUS_MULT|
  const JITTER_SPAN: real := 0.8
  const FLOAT_Y: real := 0.4
  const HEIGHT_SPAN: real := 0.3
  const GOLD_MAX: real := 0.8
  const SPEED_STEP: real := 0.12
  const SPIN_PER_FRAME: real := 0.005
  const BOB_AMPLITUDE: real := 0.15

  /** The three Math.random() draws of one ring particle: radius jitter, height, colour weight. */
  datatype RingDraw = RingDraw(jitter: real, height: real, gold: real)

  predicate ValidRingDraw(d: RingDraw) {
    Unit(d.jitter) && Unit(d.height) && Unit(d.gold)
  }

  /** Ring k's radius: the tree's base radius times the ring's multiplier. */
  function RingRadius(k: nat): (r: real)
    requires k < RING_COUNT
    ensures r == BASE_RADIUS * RADIUS_MULT[k]
    ensures 1.5 * BASE_RADIUS <= r <= 2.2 * BASE_RADIUS
  {
    BASE_RADIUS * RADIUS_MULT[k]
  }

  /** Particle i's azimuth, i / N of the full turn. */
  function RingAngle(i: nat): (a: real)
    requires i < PARTICLES_PER_RING
    ensures 0.0 <= a < TWO_PI
    ensures a == TWO_PI * i as real / PARTICLES_PER_RING as real
  {
    (i as real / PARTICLES_PER_RING as real) * PI * 2.0
  }

  /** The azimuths are evenly spaced: neighbours are a full turn over N apart. */
  lemma AnglesEvenlySpaced(i: nat)
    requires i + 1 < PARTICLES_PER_RING
    ensures RingAngle(i + 1) - RingAngle(i) == TWO_PI / PARTICLES_PER_RING as real
  {
  }

  /**
   * Particle i of ring k: planar distance radius + jitter with jitter in [-0.4, 0.4),
   * height 0.4 + [-0.15, 0.15), colour white lerped toward gold by a weight below 0.8.
   */
  function RingPoint(k: nat, i: nat, d: RingDraw): (p: Particle)
    requires k < RING_COUNT && i < PARTICLES_PER_RING && ValidRingDraw(d)
    ensures p.pos.angle == RingAngle(i)
    ensures RingRadius(k) - 0.4 <= p.pos.radial < RingRadius(k) + 0.4
    ensures p.pos.radial > BASE_RADIUS
    ensures 0.25 <= p.pos.y < 0.55
    ensures ValidRgb(p.color) && p.color.r == 1.0
    ensures GOLD_COLOR.g <= p.color.g <= 1.0 && 1.0 - GOLD_MAX < p.color.b <= 1.0
    ensures p.color != GOLD_COLOR
  {
    var jitter := (d.jitter - 0.5) * JITTER_SPAN;
    var y := FLOAT_Y + (d.height - 0.5) * HEIGHT_SPAN;
    var w := d.gold * GOLD_MAX;
    Particle(Cyl(RingAngle(i), y, RingRadius(k) + jitter), LerpRgb(WHITE_COLOR, GOLD_COLOR, w))
  }

  /** The spin rate of ring k: outer rings spin faster. */
  function RingSpeed(k: nat): (s: real)
    ensures s == (k + 1) as real * SPEED_STEP
    ensures s > 0.0
  {
    (k + 1) as real * SPEED_STEP
  }

  lemma SpeedIncreasing(k: nat, j: nat)
    requires k < j
    ensures RingSpeed(k) < RingSpeed(j)
  {
  }

  predicate ValidDraws(draws: seq<RingDraw>) {
    |draws| == PARTICLES_PER_RING && forall i :: 0 <= i < |draws| ==> ValidRingDraw(draws[i])
  }

  /** The buffers and the spin rate of one ring. */
  datatype RingData = RingData(pos: array<real>, colors: array<real>, speed: real)

  /** Buffer slot 3i..3i+2 holds (azimuth, height, planar distance) and (r, g, b) of particle i. */
  ghost predicate RingFilled(k: nat, draws: seq<RingDraw>, pos: array<real>, colors: array<real>)
    requires k < RING_COUNT && ValidDraws(draws)
    reads pos, colors
  {
    pos.Length == 3 * PARTICLES_PER_RING && colors.Length == 3 * PARTICLES_PER_RING &&
    forall i :: 0 <= i < PARTICLES_PER_RING ==>
      var p := RingPoint(k, i, draws[i]);
      pos[3 * i] == p.pos.angle && pos[3 * i + 1] == p.pos.y && pos[3 * i + 2] == p.pos.radial &&
      colors[3 * i] == p.color.r && colors[3 * i + 1] == p.color.g && colors[3 * i + 2] == p.color.b
  }

  /** The inner loop: fills the two buffers of ring k. */
  method BuildRing(k: nat, draws: seq<RingDraw>) returns (ring: RingData)
    requires k < RING_COUNT && ValidDraws(draws)
    ensures fresh(ring.pos) && fresh(ring.colors) && ring.pos != ring.colors
    ensures RingFilled(k, draws, ring.pos, ring.colors)
    ensures ring.speed == RingSpeed(k)
  {
    var pos := new real[3 * PARTICLES_PER_RING];
    var colors := new real[3 * PARTICLES_PER_RING];
    var i := 0;
    while i < PARTICLES_PER_RING
      invariant 0 <= i <= PARTICLES_PER_RING
      invariant forall m :: 0 <= m < i ==>
        var p := RingPoint(k, m, draws[m]);
        pos[3 * m] == p.pos.angle && pos[3 * m + 1] == p.pos.y && pos[3 * m + 2] == p.pos.radial &&
        colors[3 * m] == p.color.r && colors[3 * m + 1] == p.color.g && colors[3 * m + 2] == p.color.b
    {
      var p := RingPoint(k, i, draws[i]);
      pos[i * 3 + 0] := p.pos.angle;
      pos[i * 3 + 1] := p.pos.y;
      pos[i * 3 + 2] := p.pos.radial;
      colors[i * 3 + 0] := p.color.r;
      colors[i * 3 + 1] := p.color.g;
      colors[i * 3 + 2] := p.color.b;
      i := i + 1;
    }
    ring := RingData(pos, colors, (k + 1) as real * SPEED_STEP);
  }

  /** The map over the radius multipliers: one filled ring per multiplier, in order. */
  method BuildRings(draws: seq<seq<RingDraw>>) returns (rings: seq<RingData>)
    requires |draws| == RING_COUNT && forall k :: 0 <= k < |draws| ==> ValidDraws(draws[k])
    ensures |rings| == RING_COUNT
    ensures forall k :: 0 <= k < RING_COUNT ==>
      fresh(rings[k].pos) && fresh(rings[k].colors) && rings[k].pos != rings[k].colors &&
      RingFilled(k, draws[k], rings[k].pos, rings[k].colors) && rings[k].speed == RingSpeed(k)
  {
    rings := [];
    var k := 0;
    while k < RING_COUNT
      invariant 0 <= k <= RING_COUNT && |rings| == k
      invariant forall j :: 0 <= j < k ==>
        fresh(rings[j].pos) && fresh(rings[j].colors) && rings[j].pos != rings[j].colors &&
        RingFilled(j, draws[j], rings[j].pos, rings[j].colors) && rings[j].speed == RingSpeed(j)
    {
      var ring := BuildRing(k, draws[k]);
      rings := rings + [ring];
      k := k + 1;
    }
  }

  /** Spin and bob of the ring group's children. */
  class RingGroup {
    var spins: seq<real>        // child.rotation.y, one per ring
    var bobs: seq<real>         // child.position.y, one per ring
    ghost var frames: nat       // frames rendered so far

    ghost predicate Valid()
      reads this
    {
      |spins| == RING_COUNT && |bobs| == RING_COUNT &&
      (forall k :: 0 <= k < RING_COUNT ==> spins[k] == frames as real * RingSpeed(k) * SPIN_PER_FRAME) &&
      (forall k :: 0 <= k < RING_COUNT ==> -BOB_AMPLITUDE <= bobs[k] <= BOB_AMPLITUDE)
    }

    constructor ()
      ensures Valid() && frames == 0
      ensures spins == [0.0, 0.0, 0.0] && bobs == [0.0, 0.0, 0.0]
    {
      spins := [0.0, 0.0, 0.0];
      bobs := [0.0, 0.0, 0.0];
      frames := 0;
    }

    /** One frame; `sines[k]` is sin(0.5 t + k) of the clock's elapsed time t. */
    method Frame(sines: seq<real>)
      requires Valid()
      requires |sines| == RING_COUNT && forall k :: 0 <= k < |sines| ==> -1.0 <= sines[k] <= 1.0
      modifies this
      ensures Valid() && frames == old(frames) + 1
      ensures forall k :: 0 <= k < RING_COUNT ==>
        spins[k] == old(spins[k]) + RingSpeed(k) * SPIN_PER_FRAME && bobs[k] == sines[k] * BOB_AMPLITUDE
    {
      var k := 0;
      var newSpins: seq<real> := [];
      var newBobs: seq<real> := [];
      while k < RING_COUNT
        invariant 0 <= k <= RING_COUNT && |newSpins| == k && |newBobs| == k
        invariant forall j :: 0 <= j < k ==>
          newSpins[j] == spins[j] + RingSpeed(j) * SPIN_PER_FRAME && newBobs[j] == sines[j] * BOB_AMPLITUDE
      {
        newSpins := newSpins + [spins[k] + (k + 1) as real * SPEED_STEP * SPIN_PER_FRAME];
        newBobs := newBobs + [sines[k] * BOB_AMPLITUDE];
        k := k + 1;
      }
      spins, bobs := newSpins, newBobs;
      frames := frames + 1;
    }
  }

  /** After any number of frames, an outer ring has turned further than an inner one. */
  lemma OuterRingsAhead(n: nat, k: nat, j: nat)
    requires n > 0 && k < j
    ensures n as real * RingSpeed(k) * SPIN_PER_FRAME < n as real * RingSpeed(j) * SPIN_PER_FRAME
  {
    var d := RingSpeed(j) - RingSpeed(k);
    assert d > 0.0;
    MulNonNegative(n as real, d);
    MulNonZero(n as real, d);
    assert n as real * RingSpeed(j) - n as real * RingSpeed(k) == n as real * d;
  }
}
