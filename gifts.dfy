/**
 * A gift box's fall-and-settle animation: it drops from y = 25 under constant
 * acceleration, bounces with damping at its resting height while it is still fast,
 * then lands for good and bobs around the resting height; hover eases its scale.
 */
module Gifts {
  import opened Config
  import opened Smoothing

  const SPAWN_Y: real := 25.0
  const GRAVITY: real := 15.0
  const BOUNCE_SPEED: real := 2.0
  const BOUNCE_DAMPING: real := -0.3
  const BOB_AMPLITUDE: real := 0.05
  const HOVER_FACTOR: real := 1.25
  const SCALE_ALPHA: real := 0.15

  datatype Phase = Falling | Landed

  /** The vertical transport state: height, vertical velocity and phase. */
  datatype Fall = Fall(y: real, v: real, phase: Phase)

  function Abs(x: real): real { if x < 0.0 then -x else x }

  /**
   * One tick of vertical transport toward resting height `target`. While falling:
   * v -= 15 dt, y += v dt; on reaching the target the height is clamped to it and either
   * the velocity is reflected and damped (|v| > 2) or the box lands. Landed is final.
   */
  function FallStep(f: Fall, target: real, dt: real): (r: Fall)
    ensures f.phase == Landed ==> r == f
    ensures f.phase == Falling && f.y + (f.v - dt * GRAVITY) * dt > target ==>
      r == Fall(f.y + (f.v - dt * GRAVITY) * dt, f.v - dt * GRAVITY, Falling)
    ensures f.phase == Falling && f.y + (f.v - dt * GRAVITY) * dt <= target ==>
      r.y == target &&
      (Abs(f.v - dt * GRAVITY) > BOUNCE_SPEED ==> r.phase == Falling && r.v == BOUNCE_DAMPING * (f.v - dt * GRAVITY)) &&
      (Abs(f.v - dt * GRAVITY) <= BOUNCE_SPEED ==> r.phase == Landed)
    ensures f.y >= target ==> r.y >= target
  {
    if f.phase == Landed then f
    else
      var v := f.v - dt * GRAVITY;
      var y := f.y + v * dt;
      if y <= target then
        if Abs(v) > BOUNCE_SPEED then Fall(target, v * BOUNCE_DAMPING, Falling)
        else Fall(target, v, Landed)
      else Fall(y, v, Falling)
  }

  /** Before contact, with dt > 0, the velocity drops by exactly 15 dt — strictly. */
  lemma FreeFallAccelerates(f: Fall, target: real, dt: real)
    requires f.phase == Falling && dt > 0.0
    requires f.y + (f.v - dt * GRAVITY) * dt > target
    ensures FallStep(f, target, dt).v == f.v - dt * GRAVITY < f.v
    ensures FallStep(f, target, dt).y - f.y == FallStep(f, target, dt).v * dt
  {
  }

  /** A bounce reverses the direction of travel and loses at least 70% of the speed. */
  lemma BounceDamps(f: Fall, target: real, dt: real)
    requires f.phase == Falling
    requires f.y + (f.v - dt * GRAVITY) * dt <= target
    requires Abs(f.v - dt * GRAVITY) > BOUNCE_SPEED
    ensures var r := FallStep(f, target, dt);
      r.phase == Falling && Abs(r.v) < Abs(f.v - dt * GRAVITY) &&
      (f.v - dt * GRAVITY < 0.0 ==> r.v > 0.0) && (f.v - dt * GRAVITY > 0.0 ==> r.v < 0.0)
  {
  }

  function FallAfter(f: Fall, target: real, dts: seq<real>): Fall
    decreases |dts|
  {
    if dts == [] then f else FallAfter(FallStep(f, target, dts[0]), target, dts[1..])
  }

  /** The phase never moves back: a landed box stays landed, at the same height, forever. */
  lemma {:induction false} LandedIsFinal(f: Fall, target: real, dts: seq<real>)
    requires f.phase == Landed
    ensures FallAfter(f, target, dts) == f
    decreases |dts|
  {
    if dts != [] {
      LandedIsFinal(f, target, dts[1..]);
    }
  }

  /** Over any run, a box that is landed afterwards was either landed before, or it was falling. */
  lemma {:induction false} PhaseMonotone(f: Fall, target: real, dts: seq<real>)
    ensures FallAfter(f, target, dts).phase == Falling ==> f.phase == Falling
    ensures f.y >= target ==> FallAfter(f, target, dts).y >= target
    decreases |dts|
  {
    if dts != [] {
      PhaseMonotone(FallStep(f, target, dts[0]), target, dts[1..]);
    }
  }

  /** The hover target of the scale: 1.25 times the box's own size while hovered. */
  function TargetScale(boxScale: real, hovered: bool): (s: real)
    ensures 0.6 <= boxScale < 1.0 ==> 0.6 <= s < 1.25
    ensures hovered ==> s == boxScale * HOVER_FACTOR
    ensures !hovered ==> s == boxScale
  {
    boxScale * (if hovered then HOVER_FACTOR else 1.0)
  }

  /** The discrete hover levels: inner light intensity, rim-glow opacity and body emissive intensity. */
  function InnerLightIntensity(hovered: bool): real { if hovered then 8.0 else 4.0 }
  function RimOpacity(hovered: bool): real { if hovered then 0.4 else 0.2 }
  function BodyEmissive(hovered: bool): real { if hovered then 0.8 else 0.4 }

  class GiftBox {
    const targetY: real         // resting height, position[1]
    const boxScale: real        // 0.6 + random * 0.4
    const rotationOffset: real  // random * 2π
    var fall: Fall              // currentY, velocityY and phase
    var hovered: bool
    var scale: real             // uniform mesh scale
    var meshY: real             // rendered height
    var rotY: real
    var innerLight: real        // intensity of the internal point light
    var rimOpacity: real        // opacity of the rim glow
    var bodyEmissive: real      // emissiveIntensity of the box body

    ghost predicate Valid()
      reads this
    {
      0.6 <= boxScale < 1.0 && 0.0 <= rotationOffset < TWO_PI &&
      fall.y >= targetY && (fall.phase == Landed ==> fall.y == targetY) &&
      (fall.phase == Falling ==> meshY == fall.y) &&
      (fall.phase == Landed ==> targetY - BOB_AMPLITUDE <= meshY <= targetY + BOB_AMPLITUDE) &&
      innerLight == InnerLightIntensity(hovered) && rimOpacity == RimOpacity(hovered) &&
      bodyEmissive == BodyEmissive(hovered)
    }

    constructor (restY: real, uScale: real, uRotation: real)
      requires restY <= SPAWN_Y && Unit(uScale) && Unit(uRotation)
      ensures Valid()
      ensures targetY == restY && boxScale == 0.6 + uScale * 0.4 && rotationOffset == uRotation * PI * 2.0
      ensures fall == Fall(SPAWN_Y, 0.0, Falling) && !hovered
      ensures scale == 1.0 && meshY == SPAWN_Y && rotY == 0.0
      ensures innerLight == 4.0 && rimOpacity == 0.2 && bodyEmissive == 0.4
    {
      targetY := restY;
      boxScale := 0.6 + uScale * 0.4;
      rotationOffset := uRotation * PI * 2.0;
      fall := Fall(SPAWN_Y, 0.0, Falling);
      hovered := false;
      scale := 1.0;
      meshY := SPAWN_Y;
      rotY := 0.0;
      innerLight, rimOpacity, bodyEmissive := 4.0, 0.2, 0.4;
    }

    /**
     * Pointer enter/leave. The three material levels switch at once, hovering doubling each
     * of them; the scale is left to ease on later frames.
     */
    method SetHover(h: bool)
      requires Valid()
      modifies this
      ensures Valid()
      ensures hovered == h
      ensures h ==> innerLight == 8.0 && rimOpacity == 0.4 && bodyEmissive == 0.8
      ensures !h ==> innerLight == 4.0 && rimOpacity == 0.2 && bodyEmissive == 0.4
      ensures h && !old(hovered) ==>
        innerLight == 2.0 * old(innerLight) && rimOpacity == 2.0 * old(rimOpacity) &&
        bodyEmissive == 2.0 * old(bodyEmissive)
      ensures fall == old(fall) && scale == old(scale) && meshY == old(meshY) && rotY == old(rotY)
    {
      hovered := h;
      innerLight := if h then 8.0 else 4.0;
      rimOpacity := if h then 0.4 else 0.2;
      bodyEmissive := if h then 0.8 else 0.4;
    }

    /**
     * One frame. `bob` and `sway` are sin(1.5 t + offset) and sin(0.5 t) of the clock's
     * elapsed time t. While falling the box spins; once landed it bobs within ±0.05 of
     * its resting height and sways around its rotation offset.
     */
    method Tick(dt: real, bob: real, sway: real)
      requires Valid()
      requires -1.0 <= bob <= 1.0 && -1.0 <= sway <= 1.0
      modifies this
      ensures Valid()
      ensures fall == FallStep(old(fall), targetY, dt)
      ensures old(fall).phase == Landed ==> fall.phase == Landed
      ensures old(fall).phase == Falling ==> meshY == fall.y && rotY == old(rotY) + dt * 2.0
      ensures old(fall).phase == Landed ==>
        meshY == targetY + bob * BOB_AMPLITUDE && rotY == rotationOffset + sway * 0.1
      ensures scale == Lerp(old(scale), TargetScale(boxScale, hovered), SCALE_ALPHA)
      ensures hovered == old(hovered)
      ensures innerLight == old(innerLight) && rimOpacity == old(rimOpacity) && bodyEmissive == old(bodyEmissive)
    {
      if fall.phase == Falling {
        var v := fall.v - dt * GRAVITY;
        var y := fall.y + v * dt;
        var phase := Falling;
        if y <= targetY {
          y := targetY;
          if Abs(v) > BOUNCE_SPEED {
            v := v * BOUNCE_DAMPING;
          } else {
            phase := Landed;
          }
        }
        fall := Fall(y, v, phase);
        meshY := y;
        rotY := rotY + dt * 2.0;
      } else {
        meshY := targetY + bob * BOB_AMPLITUDE;
        rotY := rotationOffset + sway * 0.1;
      }
      scale := Lerp(scale, TargetScale(boxScale, hovered), SCALE_ALPHA);
    }
  }

  /** The hover scale ease shrinks the gap to its target by the factor 0.85 and never overshoots. */
  lemma ScaleEase(s: real, boxScale: real, hovered: bool)
    ensures var t := TargetScale(boxScale, hovered);
      Lerp(s, t, SCALE_ALPHA) - t == 0.85 * (s - t) && Between(Lerp(s, t, SCALE_ALPHA), s, t)
  {
  }
}
