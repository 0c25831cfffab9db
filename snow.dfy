/**
 * The ambient snow field: COUNT particles in a flat xyz position buffer with a fall
 * speed each; every frame each height drops by its speed and wraps from below the
 * lower bound to the upper bound.
 */
module Snow {
  import opened Config

  const SPEED_MIN: real := 0.02
  const SPEED_SPAN: real := 0.05

  /** The Math.random() draws of one snowflake: three coordinates and the speed. */
  datatype FlakeDraw = FlakeDraw(x: real, y: real, z: real, speed: real)

  predicate ValidDraws(draws: seq<FlakeDraw>) {
    |draws| == SNOW_COUNT &&
    forall i :: 0 <= i < |draws| ==> Unit(draws[i].x) && Unit(draws[i].y) && Unit(draws[i].z) && Unit(draws[i].speed)
  }

  /** Initial coordinates: x, z uniform in [-B, B), y uniform in [-B.y, B.y), speed in [0.02, 0.07). */
  function FlakeX(d: FlakeDraw): real { (d.x - 0.5) * BOUNDS_X * 2.0 }
  function FlakeY(d: FlakeDraw): (y: real)
    requires Unit(d.y)
    ensures -BOUNDS_Y <= y < BOUNDS_Y
  {
    d.y * BOUNDS_Y * 2.0 - BOUNDS_Y
  }
  function FlakeZ(d: FlakeDraw): real { (d.z - 0.5) * BOUNDS_Z * 2.0 }
  function FlakeSpeed(d: FlakeDraw): (s: real)
    requires Unit(d.speed)
    ensures SPEED_MIN <= s < SPEED_MIN + SPEED_SPAN
  {
    d.speed * SPEED_SPAN + SPEED_MIN
  }

  /** One height after a frame: down by its speed, or back to the top once below -B.y. */
  function FallY(y: real, speed: real): (r: real)
    ensures r == BOUNDS_Y || r == y - speed
    ensures r != y - speed <==> y - speed < -BOUNDS_Y
    ensures -BOUNDS_Y <= y <= BOUNDS_Y && speed > 0.0 ==> -BOUNDS_Y <= r <= BOUNDS_Y
  {
    if y - speed < -BOUNDS_Y then BOUNDS_Y else y - speed
  }

  predicate IsY(j: int) { j % 3 == 1 }

  /** The three slots of particle i, and the particle a y slot belongs to. */
  lemma Slots(i: int)
    requires i >= 0
    ensures !IsY(3 * i) && IsY(3 * i + 1) && !IsY(3 * i + 2) && (3 * i + 1) / 3 == i
  {
  }

  lemma SlotOwner(j: int)
    requires j >= 0 && IsY(j)
    ensures j == 3 * (j / 3) + 1
  {
  }

  /** The whole buffer after a frame: only the y slots change. */
  function FallAll(pos: seq<real>, speeds: seq<real>): (r: seq<real>)
    requires |pos| == 3 * |speeds|
    ensures |r| == |pos|
    ensures forall j :: 0 <= j < |pos| && !IsY(j) ==> r[j] == pos[j]
    ensures forall i :: 0 <= i < |speeds| ==> r[3 * i + 1] == FallY(pos[3 * i + 1], speeds[i])
  {
    var r := seq(|pos|, j requires 0 <= j < |pos| => if IsY(j) then FallY(pos[j], speeds[j / 3]) else pos[j]);
    assert forall i :: 0 <= i < |speeds| ==> r[3 * i + 1] == FallY(pos[3 * i + 1], speeds[i]) by {
      forall i | 0 <= i < |speeds| ensures r[3 * i + 1] == FallY(pos[3 * i + 1], speeds[i]) {
        Slots(i);
      }
    }
    r
  }

  predicate InBounds(pos: seq<real>) {
    forall j :: 0 <= j < |pos| && IsY(j) ==> -BOUNDS_Y <= pos[j] <= BOUNDS_Y
  }

  predicate PositiveSpeeds(speeds: seq<real>) {
    forall i :: 0 <= i < |speeds| ==> speeds[i] > 0.0
  }

  /** A frame keeps every height in [-B.y, B.y] when all speeds are positive. */
  lemma FallKeepsBounds(pos: seq<real>, speeds: seq<real>)
    requires |pos| == 3 * |speeds| && InBounds(pos) && PositiveSpeeds(speeds)
    ensures InBounds(FallAll(pos, speeds))
  {
    var r := FallAll(pos, speeds);
    forall j | 0 <= j < |r| && IsY(j) ensures -BOUNDS_Y <= r[j] <= BOUNDS_Y {
      SlotOwner(j);
      assert r[j] == FallY(pos[j], speeds[j / 3]);
    }
  }

  class SnowField {
    var pos: array<real>
    var speeds: array<real>

    ghost predicate Valid()
      reads this, pos, speeds
    {
      pos != speeds && pos.Length == 3 * SNOW_COUNT && speeds.Length == SNOW_COUNT &&
      InBounds(pos[..]) &&
      forall i :: 0 <= i < speeds.Length ==> SPEED_MIN <= speeds[i] < SPEED_MIN + SPEED_SPAN
    }

    constructor (draws: seq<FlakeDraw>)
      requires ValidDraws(draws)
      ensures Valid() && fresh(pos) && fresh(speeds)
      ensures forall i :: 0 <= i < SNOW_COUNT ==>
        pos[3 * i] == FlakeX(draws[i]) && pos[3 * i + 1] == FlakeY(draws[i]) &&
        pos[3 * i + 2] == FlakeZ(draws[i]) && speeds[i] == FlakeSpeed(draws[i])
    {
      var p := new real[3 * SNOW_COUNT];
      var s := new real[SNOW_COUNT];
      var i := 0;
      while i < SNOW_COUNT
        invariant 0 <= i <= SNOW_COUNT
        invariant forall k :: 0 <= k < i ==>
          p[3 * k] == FlakeX(draws[k]) && p[3 * k + 1] == FlakeY(draws[k]) &&
          p[3 * k + 2] == FlakeZ(draws[k]) && s[k] == FlakeSpeed(draws[k])
      {
        p[i * 3 + 0] := FlakeX(draws[i]);
        p[i * 3 + 1] := FlakeY(draws[i]);
        p[i * 3 + 2] := FlakeZ(draws[i]);
        s[i] := FlakeSpeed(draws[i]);
        i := i + 1;
      }
      pos, speeds := p, s;
      forall j | 0 <= j < p.Length && IsY(j) ensures -BOUNDS_Y <= p[j] <= BOUNDS_Y {
        SlotOwner(j);
        var k := j / 3;
        assert p[3 * k + 1] == FlakeY(draws[k]);
      }
    }

    /** One frame: only the y slots are rewritten, in place, each falling and wrapping on its own. */
    method Tick()
      requires Valid()
      modifies pos
      ensures Valid()
      ensures pos[..] == FallAll(old(pos[..]), speeds[..])
    {
      var i := 0;
      while i < SNOW_COUNT
        invariant 0 <= i <= SNOW_COUNT
        invariant forall j :: 0 <= j < pos.Length && (!IsY(j) || j / 3 >= i) ==> pos[j] == old(pos[j])
        invariant forall k :: 0 <= k < i ==> pos[3 * k + 1] == FallY(old(pos[3 * k + 1]), speeds[k])
      {
        pos[i * 3 + 1] := pos[i * 3 + 1] - speeds[i];
        if pos[i * 3 + 1] < -BOUNDS_Y {
          pos[i * 3 + 1] := BOUNDS_Y;
        }
        i := i + 1;
      }
      ghost var was := old(pos[..]);
      forall j | 0 <= j < pos.Length ensures pos[j] == FallAll(was, speeds[..])[j] {
        if IsY(j) {
          SlotOwner(j);
          var k := j / 3;
          assert pos[3 * k + 1] == FallY(was[3 * k + 1], speeds[k]);
        }
      }
      assert pos[..] == FallAll(was, speeds[..]);
      FallKeepsBounds(was, speeds[..]);
    }
  }
}
