/**
 * Points of the scene. Everything that the source places with cos/sin of an azimuth
 * is kept in cylindrical form (azimuth, height, planar distance from the tree axis),
 * so that the exclusion and cone rules are statements about the planar distance.
 */
module Geometry {
  import opened Config
  import opened Smoothing

  datatype Vec3 = Vec3(x: real, y: real, z: real)

  /** A cylindrical point: azimuth in radians, height y, planar distance from the vertical axis. */
  datatype Cyl = Cyl(angle: real, y: real, radial: real)

  /** A point of a particle cloud: its position and its vertex colour. */
  datatype Particle = Particle(pos: Cyl, color: Rgb)

  /** Color.lerp: every channel moved the fraction alpha of the way toward the target colour. */
  function LerpRgb(c: Rgb, t: Rgb, alpha: real): (r: Rgb)
    requires 0.0 <= alpha <= 1.0
    ensures Between(r.r, c.r, t.r) && Between(r.g, c.g, t.g) && Between(r.b, c.b, t.b)
  {
    Rgb(Lerp(c.r, t.r, alpha), Lerp(c.g, t.g, alpha), Lerp(c.b, t.b, alpha))
  }

  /** Radius of the tree cone at height h: BASE_RADIUS at the ground, 0 at the top. */
  function RadiusAtH(h: real): (r: real)
    ensures 0.0 <= h < HEIGHT ==> 0.0 < r <= BASE_RADIUS
    ensures r == BASE_RADIUS * (HEIGHT - h) / HEIGHT
  {
    (1.0 - h / HEIGHT) * BASE_RADIUS
  }

}
