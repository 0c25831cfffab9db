/**
 * A wish in flight: progress advancing at half a unit per second, a cubic in-out ease,
 * a quadratic Bézier path from the launch point to just above the tree top, a one-shot
 * arrival latch, and a 120-point trail shifted in place every tick with a jittered head.
 */
module WishSystem {
  import opened Config
  import opened Geometry
  import opened Smoothing

  const FLIGHT_SPEED: real := 0.5
  const TRAIL_POINTS: nat := 120
  const TRAIL_LEN: nat := 360          // TRAIL_POINTS * 3 coordinates
  const TRAIL_INIT: real := -100.0
  const JITTER_SPAN: real := 0.15

  const START_POS: Vec3 := Vec3(0.0, -6.0, 12.0)
  const MID_POS: Vec3 := Vec3(12.0, 10.0, 8.0)
  const END_POS: Vec3 := Vec3(0.0, HEIGHT + 0.5, 0.0)

  /** Cubic in-out: 4t³ on the first half, the mirrored 1 - (2 - 2t)³ / 2 on the second. */
  function Ease(t: real): (e: real)
    ensures 0.0 <= t <= 1.0 ==> 0.0 <= e <= 1.0
    ensures 0.0 <= t < 0.5 ==> e <= 0.5
    ensures 0.5 <= t <= 1.0 ==> 0.5 <= e
  {
    if t < 0.5 then
      if 0.0 <= t then CubeMonotone(0.0, t); CubeMonotone(t, 0.5); 4.0 * Cube(t)
      else 4.0 * Cube(t)
    else
      if t <= 1.0 then CubeUnit(-2.0 * t + 2.0); 1.0 - Cube(-2.0 * t + 2.0) / 2.0
      else 1.0 - Cube(-2.0 * t + 2.0) / 2.0
  }

  /** Both halves meet at t = 0.5 with value 0.5, and the ends are fixed. */
  lemma EaseJoins()
    ensures 4.0 * Cube(0.5) == 0.5 == 1.0 - Cube(-2.0 * 0.5 + 2.0) / 2.0
    ensures Ease(0.0) == 0.0 && Ease(0.5) == 0.5 && Ease(1.0) == 1.0
  {
  }

  /** The ease never runs backwards on [0, 1]. */
  lemma EaseMonotone(a: real, b: real)
    requires 0.0 <= a <= b <= 1.0
    ensures Ease(a) <= Ease(b)
  {
    if b < 0.5 {
      CubeMonotone(a, b);
    } else if 0.5 <= a {
      CubeMonotone(-2.0 * b + 2.0, -2.0 * a + 2.0);
    }
  }

  lemma ConvexLower(w0: real, w1: real, w2: real, a: real, b: real, c: real, lo: real)
    requires w0 >= 0.0 && w1 >= 0.0 && w2 >= 0.0 && w0 + w1 + w2 == 1.0
    requires lo <= a && lo <= b && lo <= c
    ensures lo <= w0 * a + w1 * b + w2 * c
  {
    MulNonNegative(w0, a - lo); MulNonNegative(w1, b - lo); MulNonNegative(w2, c - lo);
    var d := w0 * (a - lo) + w1 * (b - lo) + w2 * (c - lo);
    assert d == w0 * a + w1 * b + w2 * c - (w0 + w1 + w2) * lo;
  }

  /** A convex combination of three values lies between their least and greatest. */
  lemma ConvexCombination(w0: real, w1: real, w2: real, a: real, b: real, c: real)
    requires w0 >= 0.0 && w1 >= 0.0 && w2 >= 0.0 && w0 + w1 + w2 == 1.0
    ensures Min(Min(a, b), c) <= w0 * a + w1 * b + w2 * c <= Max(Max(a, b), c)
  {
    var hi := Max(Max(a, b), c);
    ConvexLower(w0, w1, w2, a, b, c, Min(Min(a, b), c));
    ConvexLower(w0, w1, w2, -a, -b, -c, -hi);
    assert w0 * -a + w1 * -b + w2 * -c == -(w0 * a + w1 * b + w2 * c);
  }

  /** One coordinate of a quadratic Bézier curve with control values a, b, c. */
  function Bezier(a: real, b: real, c: real, t: real): (v: real)
    ensures t == 0.0 ==> v == a
    ensures t == 1.0 ==> v == c
    ensures 0.0 <= t <= 1.0 ==> Min(Min(a, b), c) <= v <= Max(Max(a, b), c)
  {
    var s := 1.0 - t;
    if 0.0 <= t <= 1.0 then
      MulNonNegative(s, s); MulNonNegative(2.0 * s, t); MulNonNegative(t, t);
      assert s * s + 2.0 * s * t + t * t == (s + t) * (s + t);
      ConvexCombination(s * s, 2.0 * s * t, t * t, a, b, c);
      s * s * a + 2.0 * s * t * b + t * t * c
    else
      s * s * a + 2.0 * s * t * b + t * t * c
  }

  /** The flight path: launch point, elevated control point, tree top. */
  function CurvePoint(t: real): (p: Vec3)
    ensures t == 0.0 ==> p == START_POS
    ensures t == 1.0 ==> p == END_POS
    ensures 0.0 <= t <= 1.0 ==> 0.0 <= p.x <= 12.0 && -6.0 <= p.y <= HEIGHT + 0.5 && 0.0 <= p.z <= 12.0
  {
    Vec3(Bezier(START_POS.x, MID_POS.x, END_POS.x, t),
         Bezier(START_POS.y, MID_POS.y, END_POS.y, t),
         Bezier(START_POS.z, MID_POS.z, END_POS.z, t))
  }

  /** The trail head: the curve point plus `(Math.random() - 0.5) * 0.15` on each axis. */
  function Jittered(p: Vec3, jx: real, jy: real, jz: real): (q: Vec3)
    requires Unit(jx) && Unit(jy) && Unit(jz)
    ensures -0.075 <= q.x - p.x < 0.075 && -0.075 <= q.y - p.y < 0.075 && -0.075 <= q.z - p.z < 0.075
  {
    Vec3(p.x + (jx - 0.5) * JITTER_SPAN, p.y + (jy - 0.5) * JITTER_SPAN, p.z + (jz - 0.5) * JITTER_SPAN)
  }

  /** The trail after one flight tick: the new head in slots 0..2, every older point one slot back, the last dropped. */
  function ShiftTrail(s: seq<real>, h: Vec3): (r: seq<real>)
    requires |s| == TRAIL_LEN
    ensures |r| == TRAIL_LEN
    ensures r[0] == h.x && r[1] == h.y && r[2] == h.z
    ensures forall j :: 3 <= j < TRAIL_LEN ==> r[j] == s[j - 3]
  {
    [h.x, h.y, h.z] + s[..TRAIL_LEN - 3]
  }

  /** The scalar state of a wish: stored progress, the isDone state and the hasTriggeredArrival latch. */
  datatype Flight = Flight(progress: real, isDone: bool, latched: bool)

  datatype TickResult = TickResult(next: Flight, fired: bool)

  const LAUNCH: Flight := Flight(0.0, false, false)

  /** Stored progress stays in [0, 1) and the latch is set exactly when the wish is done. */
  predicate FlightValid(f: Flight) {
    0.0 <= f.progress < 1.0 && (f.latched <==> f.isDone)
  }

  /** Whether a tick moves the wish along its path (rather than arriving or doing nothing). */
  predicate Flies(f: Flight, dt: real) {
    !f.isDone && f.progress + dt * FLIGHT_SPEED < 1.0
  }

  /**
   * One tick of the flight. A done wish is left as it is. Otherwise progress + dt / 2 is
   * computed; reaching 1 fires the arrival (if the latch is still open) and marks the wish
   * done without storing the progress, and below 1 the progress is stored.
   */
  function FlightStep(f: Flight, dt: real): (r: TickResult)
    ensures f.isDone ==> r == TickResult(f, false)
    ensures r.fired <==> !f.isDone && !f.latched && f.progress + dt * FLIGHT_SPEED >= 1.0
    ensures r.fired ==> r.next.latched
    ensures !f.isDone ==> (r.next.isDone <==> !Flies(f, dt))
    ensures Flies(f, dt) ==> r.next.progress == f.progress + dt * FLIGHT_SPEED
    ensures !Flies(f, dt) ==> r.next.progress == f.progress
    ensures FlightValid(f) && dt >= 0.0 ==> FlightValid(r.next) && f.progress <= r.next.progress
  {
    if f.isDone then TickResult(f, false)
    else
      var nextProgress := f.progress + dt * FLIGHT_SPEED;
      if nextProgress >= 1.0 then TickResult(Flight(f.progress, true, true), !f.latched)
      else TickResult(Flight(nextProgress, false, f.latched), false)
  }

  /** The state after a sequence of ticks. */
  function FlightAfter(f: Flight, dts: seq<real>): Flight
    decreases |dts|
  {
    if dts == [] then f else FlightAfter(FlightStep(f, dts[0]).next, dts[1..])
  }

  /** How many times the arrival callback fires over a sequence of ticks. */
  function Arrivals(f: Flight, dts: seq<real>): nat
    decreases |dts|
  {
    if dts == [] then 0
    else (if FlightStep(f, dts[0]).fired then 1 else 0) + Arrivals(FlightStep(f, dts[0]).next, dts[1..])
  }

  /**
   * Over any tick sequence, from any state, the arrival fires at most once, and never once
   * the latch is set: the latch alone bounds the arrivals, whatever the done flag says.
   */
  lemma {:induction false} ArrivesAtMostOnce(f: Flight, dts: seq<real>)
    ensures Arrivals(f, dts) <= (if f.latched then 0 else 1)
    decreases |dts|
  {
    if dts != [] {
      var r := FlightStep(f, dts[0]);
      ArrivesAtMostOnce(r.next, dts[1..]);
    }
  }

  /**
   * From a wish in flight, with non-negative deltas, the arrival fires exactly once iff the
   * accumulated progress reaches 1; until then the stored progress is the accumulated one.
   */
  lemma {:induction false} ArrivesExactlyOnce(f: Flight, dts: seq<real>)
    requires !f.isDone && !f.latched && f.progress < 1.0 && NonNegative(dts)
    ensures Arrivals(f, dts) == 1 <==> f.progress + FLIGHT_SPEED * Sum(dts) >= 1.0
    ensures f.progress + FLIGHT_SPEED * Sum(dts) < 1.0 ==>
      FlightAfter(f, dts) == Flight(f.progress + FLIGHT_SPEED * Sum(dts), false, false)
    decreases |dts|
  {
    if dts != [] {
      TailNonNegative(dts);
      SumNonNegative(dts[1..]);
      var r := FlightStep(f, dts[0]);
      if r.fired {
        ArrivesAtMostOnce(r.next, dts[1..]);
      } else {
        ArrivesExactlyOnce(r.next, dts[1..]);
      }
    }
  }

  /** Once done, any further ticks change nothing and fire nothing. */
  lemma {:induction false} DoneIsFinal(f: Flight, dts: seq<real>)
    requires f.isDone
    ensures FlightAfter(f, dts) == f && Arrivals(f, dts) == 0
    decreases |dts|
  {
    if dts != [] {
      DoneIsFinal(f, dts[1..]);
    }
  }

  class WishProjectile {
    var progress: real
    var isDone: bool
    var hasTriggeredArrival: bool
    var trail: array<real>     // the trail's Float32Array position buffer
    var head: Vec3             // position of the star cluster
    var spinY: real
    var spinZ: real

    ghost function State(): Flight
      reads this
    {
      Flight(progress, isDone, hasTriggeredArrival)
    }

    ghost predicate Valid()
      reads this
    {
      trail.Length == TRAIL_LEN && FlightValid(State())
    }

    /** A new wish at the launch point with its trail parked at -100 on every coordinate. */
    constructor ()
      ensures Valid() && fresh(trail)
      ensures State() == LAUNCH
      ensures trail[..] == seq(TRAIL_LEN, _ => TRAIL_INIT)
      ensures head == Vec3(0.0, 0.0, 0.0) && spinY == 0.0 && spinZ == 0.0
    {
      var buf := new real[TRAIL_LEN];
      var i := 0;
      while i < TRAIL_LEN
        invariant 0 <= i <= TRAIL_LEN
        invariant forall j :: 0 <= j < i ==> buf[j] == TRAIL_INIT
      {
        buf[i] := TRAIL_INIT;
        i := i + 1;
      }
      progress, isDone, hasTriggeredArrival := 0.0, false, false;
      trail := buf;
      head := Vec3(0.0, 0.0, 0.0);
      spinY, spinZ := 0.0, 0.0;
    }

    /** Shift every trail point one slot toward the tail, last to first, and write the head. */
    method ShiftAndWrite(h: Vec3)
      requires Valid()
      modifies trail
      ensures trail[..] == ShiftTrail(old(trail[..]), h)
    {
      var i := TRAIL_POINTS - 1;
      while i > 0
        invariant 0 <= i <= TRAIL_POINTS - 1
        invariant forall j :: 3 * (i + 1) <= j < TRAIL_LEN ==> trail[j] == old(trail[j - 3])
        invariant forall j :: 0 <= j < 3 * (i + 1) ==> trail[j] == old(trail[j])
      {
        trail[i * 3] := trail[(i - 1) * 3];
        trail[i * 3 + 1] := trail[(i - 1) * 3 + 1];
        trail[i * 3 + 2] := trail[(i - 1) * 3 + 2];
        i := i - 1;
      }
      trail[0] := h.x;
      trail[1] := h.y;
      trail[2] := h.z;
      ghost var was := old(trail[..]);
      assert forall j :: 3 <= j < TRAIL_LEN ==> trail[j] == was[j - 3];
      assert trail[..] == ShiftTrail(was, h);
    }

    /**
     * One frame. Returns whether onArrive was called. On the arrival tick neither the trail
     * nor the progress moves; on a flight tick the eased curve point becomes the head.
     */
    method Tick(dt: real, jx: real, jy: real, jz: real) returns (fired: bool)
      requires Valid() && dt >= 0.0
      requires Unit(jx) && Unit(jy) && Unit(jz)
      modifies this, trail
      ensures Valid() && trail == old(trail)
      ensures TickResult(State(), fired) == FlightStep(old(State()), dt)
      ensures Flies(old(State()), dt) ==>
        var p := CurvePoint(Ease(old(progress) + dt * FLIGHT_SPEED));
        head == p && spinY == old(spinY) + dt * 6.0 && spinZ == old(spinZ) + dt * 3.0 &&
        trail[..] == ShiftTrail(old(trail[..]), Jittered(p, jx, jy, jz))
      ensures !Flies(old(State()), dt) ==>
        trail[..] == old(trail[..]) && head == old(head) && spinY == old(spinY) && spinZ == old(spinZ)
    {
      fired := false;
      if isDone {
        return;
      }
      var nextProgress := progress + dt * FLIGHT_SPEED;
      if nextProgress >= 1.0 {
        if !hasTriggeredArrival {
          hasTriggeredArrival := true;
          fired := true;
        }
        isDone := true;
      } else {
        var eased := Ease(nextProgress);
        var p := CurvePoint(eased);
        head := p;
        spinY := spinY + dt * 6.0;
        spinZ := spinZ + dt * 3.0;
        ShiftAndWrite(Jittered(p, jx, jy, jz));
        progress := nextProgress;
      }
    }
  }
}
