/**
 * The scene root's interaction controller: the three decoration lists, the queue of
 * wishes waiting out their one-second promotion delay, and the per-frame gesture,
 * scale, rotation and pulse update.
 */
module SceneController {
  import opened Config
  import opened Smoothing
  import opened ScenePlacement

  /** A normalised hand keypoint as the detector reports it (the depth coordinate is unused). */
  datatype Landmark = Landmark(x: real, y: real)

  /** The detector's hands list: every hand has the 21 keypoints of the hand model. */
  predicate ValidHands(hands: seq<seq<Landmark>>) {
    forall k :: 0 <= k < |hands| ==> |hands[k]| == 21
  }

  /** The gesture state: grip openness and the rotation target of the scene group. */
  datatype Gesture = Gesture(isOpen: bool, targetX: real, targetY: real)

  const OPEN_THRESHOLD_SQ: real := 0.16   // distance 0.4, compared squared
  const SCALE_OPEN: real := 2.5
  const SCALE_CLOSED: real := 1.0
  const SCALE_ALPHA: real := 0.1
  const ROTATION_ALPHA: real := 0.05
  const PULSE_PEAK: real := 0.8
  const PULSE_DECAY: real := 0.7

  /** Squared planar distance between the thumb tip (4) and the little-finger tip (20). */
  function OpenDistSq(lm: seq<Landmark>): real
    requires |lm| == 21
  {
    (lm[4].x - lm[20].x) * (lm[4].x - lm[20].x) + (lm[4].y - lm[20].y) * (lm[4].y - lm[20].y)
  }

  /**
   * The gesture adapter. With tracking on, a ready detector and a hand in view, openness is
   * the thumb-to-little-finger distance exceeding 0.4 and the middle-finger base (9) maps
   * linearly to the rotation target; in every other case the previous state is kept.
   */
  function DetectGesture(g: Gesture, tracking: bool, ready: bool, hands: seq<seq<Landmark>>): (r: Gesture)
    requires ValidHands(hands)
    ensures !(tracking && ready && |hands| > 0) ==> r == g
    ensures tracking && ready && |hands| > 0 ==>
      (r.isOpen <==> OpenDistSq(hands[0]) > OPEN_THRESHOLD_SQ) &&
      r.targetY == (hands[0][9].x - 0.5) * 2.2 &&
      r.targetX == (hands[0][9].y - 0.5) * 1.0
  {
    if tracking && ready && |hands| > 0 then
      var lm := hands[0];
      Gesture(OpenDistSq(lm) > OPEN_THRESHOLD_SQ, (lm[9].y - 0.5) * 1.0, (lm[9].x - 0.5) * 2.2)
    else g
  }

  function ScaleTarget(isOpen: bool): real {
    if isOpen then SCALE_OPEN else SCALE_CLOSED
  }

  /**
   * One frame of scale easing: 10% of the gap to 2.5 (open) or 1.0 (closed), never past it,
   * so a scale in [1.0, 2.5] stays there.
   */
  function ScaleStep(s: real, isOpen: bool): (r: real)
    ensures r - ScaleTarget(isOpen) == 0.9 * (s - ScaleTarget(isOpen))
    ensures Between(r, s, ScaleTarget(isOpen))
    ensures SCALE_CLOSED <= s <= SCALE_OPEN ==> SCALE_CLOSED <= r <= SCALE_OPEN
  {
    Lerp(s, ScaleTarget(isOpen), SCALE_ALPHA)
  }

  /** Pulse decay `max(0, pulse - dt * 0.7)`, applied only while the pulse is positive. */
  function DecayPulse(p: real, dt: real): (r: real)
    requires dt >= 0.0
    ensures 0.0 <= p ==> 0.0 <= r <= p
    ensures p > 0.0 ==> (r == 0.0 <==> p <= dt * PULSE_DECAY)
    ensures p > 0.0 && r > 0.0 ==> r == p - dt * PULSE_DECAY
    ensures p <= 0.0 ==> r == p
  {
    if p > 0.0 then Max(0.0, p - dt * PULSE_DECAY) else p
  }

  class InteractionController {
    var tracking: bool          // cameraEnabled
    var gesture: Gesture        // isOpen state and the rotationTarget ref
    var rotX: real              // scene group rotation
    var rotY: real
    var scale: real             // scaleRef
    var treePulse: real
    var wishes: seq<WishRec>
    var ornaments: seq<OrnamentRec>
    var gifts: seq<GiftRec>
    var pending: seq<WishRec>   // arrived wishes whose one-second promotion timer is running

    ghost predicate Valid()
      reads this
    {
      SCALE_CLOSED <= scale <= SCALE_OPEN &&
      0.0 <= treePulse <= PULSE_PEAK &&
      GiftsValid(gifts) && OrnamentsValid(ornaments)
    }

    constructor (cameraEnabled: bool, ornamentDraws: seq<SurfaceDraw>, giftDists: seq<real>)
      requires |ornamentDraws| == |DEFAULT_WISHES|
      requires forall k :: 0 <= k < |ornamentDraws| ==> ValidSurfaceDraw(ornamentDraws[k])
      requires |giftDists| == |DEFAULT_GIFT_IMAGES|
      requires forall k :: 0 <= k < |giftDists| ==> Unit(giftDists[k])
      ensures Valid()
      ensures tracking == cameraEnabled && gesture == Gesture(false, 0.0, 0.0)
      ensures rotX == 0.0 && rotY == 0.0 && scale == 1.0 && treePulse == 0.0
      ensures wishes == [] && pending == []
      ensures ornaments == DefaultOrnaments(ornamentDraws) && gifts == DefaultGifts(giftDists)
    {
      tracking := cameraEnabled;
      gesture := Gesture(false, 0.0, 0.0);
      rotX, rotY := 0.0, 0.0;
      scale := 1.0;
      treePulse := 0.0;
      wishes := [];
      ornaments := DefaultOrnaments(ornamentDraws);
      gifts := DefaultGifts(giftDists);
      pending := [];
    }

    /** The camera toggle. */
    method SetTracking(enabled: bool)
      requires Valid()
      modifies this
      ensures Valid()
      ensures tracking == enabled
      ensures gesture == old(gesture) && rotX == old(rotX) && rotY == old(rotY)
      ensures scale == old(scale) && treePulse == old(treePulse)
      ensures wishes == old(wishes) && ornaments == old(ornaments)
      ensures gifts == old(gifts) && pending == old(pending)
    {
      tracking := enabled;
    }

    /** A submitted wish joins the end of the flight list. */
    method SubmitWish(w: WishRec)
      requires Valid()
      modifies this
      ensures Valid()
      ensures wishes == old(wishes) + [w]
      ensures tracking == old(tracking) && gesture == old(gesture)
      ensures rotX == old(rotX) && rotY == old(rotY)
      ensures scale == old(scale) && treePulse == old(treePulse)
      ensures ornaments == old(ornaments) && gifts == old(gifts) && pending == old(pending)
    {
      wishes := wishes + [w];
    }

    /** A submitted photo becomes a gift placed by the incremental rule. */
    method SubmitGift(id: int, imageUrl: string, uAngle: real, uDist: real, uColor: real)
      requires Valid()
      requires Unit(uAngle) && Unit(uDist) && Unit(uColor)
      modifies this
      ensures Valid()
      ensures gifts == AddGift(old(gifts), id, imageUrl, uAngle, uDist, uColor)
      ensures tracking == old(tracking) && gesture == old(gesture)
      ensures rotX == old(rotX) && rotY == old(rotY)
      ensures scale == old(scale) && treePulse == old(treePulse)
      ensures wishes == old(wishes) && ornaments == old(ornaments) && pending == old(pending)
    {
      gifts := AddGift(gifts, id, imageUrl, uAngle, uDist, uColor);
    }

    /** A wish's arrival: it leaves the flight list, the tree pulses, and its promotion timer starts. */
    method WishArrive(id: int, text: string)
      requires Valid()
      modifies this
      ensures Valid()
      ensures wishes == RemoveWish(old(wishes), id)
      ensures treePulse == PULSE_PEAK
      ensures pending == old(pending) + [WishRec(id, text)]
      ensures tracking == old(tracking) && gesture == old(gesture)
      ensures rotX == old(rotX) && rotY == old(rotY) && scale == old(scale)
      ensures ornaments == old(ornaments) && gifts == old(gifts)
    {
      wishes := RemoveWish(wishes, id);
      treePulse := PULSE_PEAK;
      pending := pending + [WishRec(id, text)];
    }

    /**
     * The oldest running promotion timer fires: its wish becomes an ornament on the tree
     * surface. All timers share the same delay, so they fire in arrival order.
     */
    method PromoteNext(d: SurfaceDraw, uColor: real) returns (promoted: bool)
      requires Valid()
      requires ValidSurfaceDraw(d) && Unit(uColor)
      modifies this
      ensures Valid()
      ensures promoted == (old(pending) != [])
      ensures promoted ==> pending == old(pending)[1..] &&
                           ornaments == PromoteWish(old(ornaments), old(pending)[0], d, uColor)
      ensures !promoted ==> pending == old(pending) && ornaments == old(ornaments)
      ensures tracking == old(tracking) && gesture == old(gesture)
      ensures rotX == old(rotX) && rotY == old(rotY)
      ensures scale == old(scale) && treePulse == old(treePulse)
      ensures wishes == old(wishes) && gifts == old(gifts)
    {
      promoted := pending != [];
      if promoted {
        ornaments := PromoteWish(ornaments, pending[0], d, uColor);
        pending := pending[1..];
      }
    }

    /**
     * One rendered frame. The scale target is the openness of the previous frame: the
     * gesture is React state, so the value set during this frame is seen only from the
     * next one; the rotation target is a ref and is used at once.
     */
    method Frame(dt: real, detectorReady: bool, hands: seq<seq<Landmark>>)
      requires Valid()
      requires dt >= 0.0 && ValidHands(hands)
      modifies this
      ensures Valid()
      ensures gesture == DetectGesture(old(gesture), tracking, detectorReady, hands)
      ensures scale == ScaleStep(old(scale), old(gesture).isOpen)
      ensures tracking ==> rotY == Lerp(old(rotY), gesture.targetY, ROTATION_ALPHA) &&
                           rotX == Lerp(old(rotX), gesture.targetX, ROTATION_ALPHA)
      ensures !tracking ==> rotX == old(rotX) && rotY == old(rotY)
      ensures treePulse == DecayPulse(old(treePulse), dt)
      ensures tracking == old(tracking)
      ensures wishes == old(wishes) && ornaments == old(ornaments)
      ensures gifts == old(gifts) && pending == old(pending)
    {
      var g := DetectGesture(gesture, tracking, detectorReady, hands);
      var s := ScaleStep(scale, gesture.isOpen);
      var p := DecayPulse(treePulse, dt);
      var ry, rx := rotY, rotX;
      if tracking {
        ry := Lerp(rotY, g.targetY, ROTATION_ALPHA);
        rx := Lerp(rotX, g.targetX, ROTATION_ALPHA);
      }
      gesture, scale, treePulse, rotY, rotX := g, s, p, ry, rx;
    }
  }

  /** Repeated frames keep the pulse in [0, 0.8] and never raise it. */
  lemma {:induction false} PulseRun(p: real, dts: seq<real>)
    requires 0.0 <= p <= PULSE_PEAK && NonNegative(dts)
    ensures 0.0 <= PulseAfter(p, dts) <= p
    decreases |dts|
  {
    if dts != [] {
      TailNonNegative(dts);
      PulseRun(DecayPulse(p, dts[0]), dts[1..]);
    }
  }

  function PulseAfter(p: real, dts: seq<real>): real
    requires NonNegative(dts)
    decreases |dts|
  {
    if dts == [] then p
    else (TailNonNegative(dts); PulseAfter(DecayPulse(p, dts[0]), dts[1..]))
  }

  /**
   * A wish's whole life on the controller: submitted with a fresh id, arrived, then promoted
   * once its timer fires. The flight list ends as it began and the tree gains exactly one
   * ornament carrying the wish's id and text.
   */
  method WishLifecycle(c: InteractionController, w: WishRec, d: SurfaceDraw, uColor: real)
    requires c.Valid() && c.pending == [] && ValidSurfaceDraw(d) && Unit(uColor)
    requires forall k :: 0 <= k < |c.wishes| ==> c.wishes[k].id != w.id
    modifies c
    ensures c.Valid()
    ensures c.wishes == old(c.wishes) && c.pending == [] && c.treePulse == PULSE_PEAK
    ensures |c.ornaments| == |old(c.ornaments)| + 1 && c.ornaments[..|old(c.ornaments)|] == old(c.ornaments)
    ensures c.ornaments[|old(c.ornaments)|].id == WishId(w.id) && c.ornaments[|old(c.ornaments)|].text == w.text
    ensures c.gifts == old(c.gifts)
  {
    c.SubmitWish(w);
    c.WishArrive(w.id, w.text);
    RemoveWishAppend(old(c.wishes), [w], w.id);
    RemoveWishAbsent(old(c.wishes), w.id);
    assert RemoveWish([w], w.id) == [];
    var promoted := c.PromoteNext(d, uColor);
  }
}
