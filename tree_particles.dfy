/**
 * The tree's point cloud: PARTICLE_COUNT points sampled inside the cone, coloured
 * through three stops by their relative distance from the axis, written into a flat
 * position buffer and a flat colour buffer; and the pulse uniform copied every frame.
 */
module TreeParticles {
  import opened Config
  import opened Geometry
  import opened Smoothing

  const INNER_STOP: real := 0.4
  const OUTER_STOP: real := 0.8

  /**
   * The draws of one particle: Math.random() for the height and the azimuth, and the value
   * of Math.pow(Math.random(), 0.7), which lies in [0, 1) as well.
   */
  datatype TreeDraw = TreeDraw(height: real, angle: real, shell: real)

  predicate ValidTreeDraw(d: TreeDraw) {
    Unit(d.height) && Unit(d.angle) && Unit(d.shell)
  }

  /** `(dist / radiusAtH) || 0`: the ratio, with the undefined 0 / 0 read as 0. */
  function RadialFactor(dist: real, radiusAtH: real): (rf: real)
    requires 0.0 <= dist <= radiusAtH
    ensures 0.0 <= rf <= 1.0
    ensures radiusAtH > 0.0 ==> rf * radiusAtH == dist
  {
    if radiusAtH == 0.0 then 0.0
    else
      assert dist / radiusAtH <= 1.0 by {
        assert dist / radiusAtH * radiusAtH == dist;
      }
      dist / radiusAtH
  }

  /** Weight toward the outer stop, used above 0.4: it lies in (0, 0.9]. */
  function OuterWeight(rf: real): (w: real)
    requires INNER_STOP < rf <= 1.0
    ensures 0.0 < w <= 0.9
  {
    (rf - INNER_STOP) * 1.5
  }

  /** Weight toward the edge stop, used above 0.8: it lies in (0, 0.8]. */
  function EdgeWeight(rf: real): (w: real)
    requires OUTER_STOP < rf <= 1.0
    ensures 0.0 < w <= 0.8
  {
    (rf - OUTER_STOP) * 4.0
  }

  /** x lies between the least and the greatest of three values. */
  predicate Within3(x: real, a: real, b: real, c: real) {
    Min(Min(a, b), c) <= x <= Max(Max(a, b), c)
  }

  /**
   * The three-stop colour: the centre colour up to 0.4, then lerped toward the outer
   * colour, then above 0.8 further toward the edge colour. Every channel stays within the
   * range the three stops span on that channel.
   */
  function BlendColor(rf: real, center: Rgb, outer: Rgb, edge: Rgb): (c: Rgb)
    requires 0.0 <= rf <= 1.0
    ensures rf <= INNER_STOP ==> c == center
    ensures Within3(c.r, center.r, outer.r, edge.r)
    ensures Within3(c.g, center.g, outer.g, edge.g)
    ensures Within3(c.b, center.b, outer.b, edge.b)
  {
    var c1 := if rf > INNER_STOP then LerpRgb(center, outer, OuterWeight(rf)) else center;
    if rf > OUTER_STOP then LerpRgb(c1, edge, EdgeWeight(rf)) else c1
  }

  /** Below 0.4 of the cone radius, the radial factor is at most 0.4. */
  lemma InnerCore(dist: real, radiusAtH: real, rf: real)
    requires radiusAtH > 0.0 && rf * radiusAtH == dist
    ensures dist <= INNER_STOP * radiusAtH ==> rf <= INNER_STOP
  {
    if rf > INNER_STOP {
      MulNonNegative(rf - INNER_STOP, radiusAtH);
      MulNonZero(rf - INNER_STOP, radiusAtH);
      assert (rf - INNER_STOP) * radiusAtH == dist - INNER_STOP * radiusAtH;
    }
  }

  /** One particle: height h = u * HEIGHT, distance shell * radiusAtH, colour by radial factor. */
  function TreePoint(d: TreeDraw): (p: Particle)
    requires ValidTreeDraw(d)
    ensures 0.0 <= p.pos.y < HEIGHT
    ensures 0.0 < RadiusAtH(p.pos.y) <= BASE_RADIUS
    ensures 0.0 <= p.pos.radial <= RadiusAtH(p.pos.y)
    ensures 0.0 <= p.pos.angle < TWO_PI
    ensures ValidRgb(p.color)
    ensures p.pos.radial <= INNER_STOP * RadiusAtH(p.pos.y) ==> p.color == CENTER_COLOR
  {
    var h := d.height * HEIGHT;
    var radiusAtH := RadiusAtH(h);
    var angle := d.angle * PI * 2.0;
    var dist := d.shell * radiusAtH;
    assert dist <= radiusAtH by { MulNonNegative(1.0 - d.shell, radiusAtH); }
    var rf := RadialFactor(dist, radiusAtH);
    InnerCore(dist, radiusAtH, rf);
    Particle(Cyl(angle, h, dist), BlendColor(rf, CENTER_COLOR, OUTER_COLOR, EDGE_COLOR))
  }

  predicate ValidDraws(draws: seq<TreeDraw>) {
    |draws| == PARTICLE_COUNT && forall i :: 0 <= i < |draws| ==> ValidTreeDraw(draws[i])
  }

  /**
   * The buffer initialiser. Particle i takes slots 3i..3i+2 of both buffers: azimuth,
   * height and planar distance in the position buffer, r, g, b in the colour buffer.
   */
  method BuildTree(draws: seq<TreeDraw>) returns (pos: array<real>, colors: array<real>)
    requires ValidDraws(draws)
    ensures fresh(pos) && fresh(colors)
    ensures pos.Length == 3 * PARTICLE_COUNT && colors.Length == 3 * PARTICLE_COUNT
    ensures forall i :: 0 <= i < PARTICLE_COUNT ==>
      var p := TreePoint(draws[i]);
      pos[3 * i] == p.pos.angle && pos[3 * i + 1] == p.pos.y && pos[3 * i + 2] == p.pos.radial &&
      colors[3 * i] == p.color.r && colors[3 * i + 1] == p.color.g && colors[3 * i + 2] == p.color.b
  {
    pos := new real[3 * PARTICLE_COUNT];
    colors := new real[3 * PARTICLE_COUNT];
    var i := 0;
    while i < PARTICLE_COUNT
      invariant 0 <= i <= PARTICLE_COUNT
      invariant forall k :: 0 <= k < i ==>
        var p := TreePoint(draws[k]);
        pos[3 * k] == p.pos.angle && pos[3 * k + 1] == p.pos.y && pos[3 * k + 2] == p.pos.radial &&
        colors[3 * k] == p.color.r && colors[3 * k + 1] == p.color.g && colors[3 * k + 2] == p.color.b
    {
      var p := TreePoint(draws[i]);
      pos[i * 3 + 0] := p.pos.angle;
      pos[i * 3 + 1] := p.pos.y;
      pos[i * 3 + 2] := p.pos.radial;
      colors[i * 3 + 0] := p.color.r;
      colors[i * 3 + 1] := p.color.g;
      colors[i * 3 + 2] := p.color.b;
      i := i + 1;
    }
  }

  /** The shader material's pulse uniform. */
  class TreeMaterial {
    var uPulse: real

    constructor ()
      ensures uPulse == 0.0
    {
      uPulse := 0.0;
    }

    /** Every frame copies the pulse intensity it is rendered with into the uniform. */
    method Frame(pulseIntensity: real)
      modifies this
      ensures uPulse == pulseIntensity
    {
      uPulse := pulseIntensity;
    }
  }
}
