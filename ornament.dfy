/**
 * A star ornament's materialise-and-idle animation: an accumulator rising at 1.5 per
 * second up to 1 drives opacity and target scale; hover switches discrete emissive,
 * core and light levels and raises the target scale; the star bobs around its position.
 */
module Ornament {
  import opened Smoothing

  const MATERIALIZE_RATE: real := 1.5
  const HOVER_FACTOR: real := 1.3
  const SCALE_ALPHA: real := 0.1
  const BOB_AMPLITUDE: real := 0.03

  /** One tick of the accumulator: `min(1, p + 1.5 dt)` while below 1, untouched once at 1. */
  function Materialize(p: real, dt: real): (r: real)
    requires 0.0 <= p <= 1.0 && dt >= 0.0
    ensures p <= r <= 1.0
    ensures p == 1.0 ==> r == 1.0
    ensures r == Min(1.0, p + dt * MATERIALIZE_RATE)
  {
    if p < 1.0 then Min(1.0, p + dt * MATERIALIZE_RATE) else p
  }

  function MaterializeAfter(p: real, dts: seq<real>): (r: real)
    requires 0.0 <= p <= 1.0 && NonNegative(dts)
    ensures 0.0 <= r <= 1.0
    decreases |dts|
  {
    if dts == [] then p
    else TailNonNegative(dts); MaterializeAfter(Materialize(p, dts[0]), dts[1..])
  }

  /**
   * The accumulator in closed form: starting from min(1, 1.5 e) after elapsed time e, it is
   * min(1, 1.5 (e + total)) after further ticks totalling `total`.
   */
  lemma {:induction false} MaterializeClosedForm(e: real, dts: seq<real>)
    requires e >= 0.0 && NonNegative(dts)
    ensures MaterializeAfter(Min(1.0, MATERIALIZE_RATE * e), dts) == Min(1.0, MATERIALIZE_RATE * (e + Sum(dts)))
    decreases |dts|
  {
    if dts != [] {
      TailNonNegative(dts);
      var p := Min(1.0, MATERIALIZE_RATE * e);
      assert Materialize(p, dts[0]) == Min(1.0, MATERIALIZE_RATE * (e + dts[0]));
      MaterializeClosedForm(e + dts[0], dts[1..]);
    }
  }

  /** A new ornament is fully materialised once its ticks add up to 2/3 of a second. */
  lemma MaterializedAfterTwoThirds(dts: seq<real>)
    requires NonNegative(dts) && Sum(dts) >= 2.0 / 3.0
    ensures MaterializeAfter(0.0, dts) == 1.0
  {
    MaterializeClosedForm(0.0, dts);
  }

  /** The target the scale eases toward: progress, raised by 30% while hovered. */
  function TargetScale(progress: real, hovered: bool): (s: real)
    requires 0.0 <= progress <= 1.0
    ensures 0.0 <= s <= HOVER_FACTOR
    ensures progress == 0.0 ==> s == 0.0
    ensures s == progress * (if hovered then HOVER_FACTOR else 1.0)
  {
    progress * (if hovered then HOVER_FACTOR else 1.0)
  }

  function Opacity(progress: real): (o: real)
    requires 0.0 <= progress <= 1.0
    ensures 0.0 <= o <= 1.0 && o == progress
  {
    Min(1.0, progress)
  }

  /** The discrete hover levels: emissive intensity, inner-core opacity and point-light intensity. */
  function EmissiveIntensity(hovered: bool): real { if hovered then 2.5 else 0.6 }
  function CoreOpacity(hovered: bool): real { if hovered then 0.8 else 0.4 }
  function LightIntensity(hovered: bool): real { if hovered then 4.0 else 0.5 }

  class OrnamentView {
    const baseY: real           // position[1]
    var progress: real          // materializeProgress
    var hovered: bool
    var scale: real             // uniform mesh scale
    var meshY: real
    var rotY: real
    var rotZ: real
    var emissive: real          // emissiveIntensity of the star body
    var coreOpacity: real       // opacity of the inner glow core
    var light: real             // intensity of the point light
    ghost var elapsed: real     // total of the frame deltas seen so far

    ghost predicate Valid()
      reads this
    {
      0.0 <= progress <= 1.0 && elapsed >= 0.0 &&
      progress == Min(1.0, MATERIALIZE_RATE * elapsed) &&
      0.0 <= scale <= HOVER_FACTOR &&
      baseY - BOB_AMPLITUDE <= meshY <= baseY + BOB_AMPLITUDE &&
      emissive == EmissiveIntensity(hovered) && coreOpacity == CoreOpacity(hovered) &&
      light == LightIntensity(hovered)
    }

    constructor (y: real)
      ensures Valid()
      ensures baseY == y && progress == 0.0 && !hovered && elapsed == 0.0
      ensures scale == 1.0 && meshY == y && rotY == 0.0 && rotZ == 0.0
      ensures emissive == 0.6 && coreOpacity == 0.4 && light == 0.5
    {
      baseY := y;
      progress := 0.0;
      hovered := false;
      scale := 1.0;
      meshY := y;
      rotY, rotZ := 0.0, 0.0;
      emissive, coreOpacity, light := 0.6, 0.4, 0.5;
      elapsed := 0.0;
    }

    /**
     * Pointer enter/leave. The three material levels switch at once to their hovered or
     * resting values; the scale is left to ease on later frames.
     */
    method SetHover(h: bool)
      requires Valid()
      modifies this
      ensures Valid()
      ensures hovered == h
      ensures h ==> emissive == 2.5 && coreOpacity == 0.8 && light == 4.0
      ensures !h ==> emissive == 0.6 && coreOpacity == 0.4 && light == 0.5
      ensures h && !old(hovered) ==>
        emissive > old(emissive) && coreOpacity > old(coreOpacity) && light > old(light)
      ensures progress == old(progress) && scale == old(scale) && elapsed == old(elapsed)
      ensures meshY == old(meshY) && rotY == old(rotY) && rotZ == old(rotZ)
    {
      hovered := h;
      emissive := if h then 2.5 else 0.6;
      coreOpacity := if h then 0.8 else 0.4;
      light := if h then 4.0 else 0.5;
    }

    /**
     * One frame; `bob`, `swayY` and `swayZ` are the sin/cos terms of the clock's elapsed
     * time. The target scale uses the progress of the previous render: React applies the
     * accumulator update only after this frame.
     */
    method Tick(dt: real, bob: real, swayY: real, swayZ: real)
      requires Valid() && dt >= 0.0
      requires -1.0 <= bob <= 1.0 && -1.0 <= swayY <= 1.0 && -1.0 <= swayZ <= 1.0
      modifies this
      ensures Valid()
      ensures elapsed == old(elapsed) + dt
      ensures progress == Materialize(old(progress), dt)
      ensures old(progress) <= progress && (old(progress) == 1.0 ==> progress == 1.0)
      ensures elapsed >= 2.0 / 3.0 ==> progress == 1.0
      ensures scale == Lerp(old(scale), TargetScale(old(progress), hovered), SCALE_ALPHA)
      ensures meshY == baseY + bob * BOB_AMPLITUDE && rotY == swayY * 0.2 && rotZ == swayZ * 0.1
      ensures hovered == old(hovered)
      ensures emissive == old(emissive) && coreOpacity == old(coreOpacity) && light == old(light)
    {
      var target := TargetScale(progress, hovered);
      if progress < 1.0 {
        progress := Min(1.0, progress + dt * MATERIALIZE_RATE);
      }
      elapsed := elapsed + dt;
      rotY := swayY * 0.2;
      rotZ := swayZ * 0.1;
      meshY := baseY + bob * BOB_AMPLITUDE;
      scale := Lerp(scale, target, SCALE_ALPHA);
    }
  }
}
