# Particle Christmas tree scene — a Dafny model of its animation and placement core

This project models the frame-by-frame logic of a React/three.js scene from the
merry-christmas repository. The scene is a cone-shaped pink particle tree with particle
rings at its foot and falling snow. Users can send wishes: each flies along a Bézier arc
to the tree top, pulses the tree on arrival and, one second later, becomes a star
ornament on the tree. Users can also add photo gifts, which drop from the sky, bounce and
settle around the tree. A hand tracker can drive the scene: an open hand enlarges it, and
the hand's position turns it.

What is modelled, one Dafny module per source file:

- **Config** (`constants.ts`): the configuration constants, colour stops and palettes.
- **Smoothing**: lerp, min/max and sums of frame deltas, shared by all animators.
- **Geometry**: cylindrical positions, the cone radius at a height, colour lerp.
- **ScenePlacement** and **SceneController** (`PinkParticleTreeScene.tsx`):
  - the decoration lists and their placement rules;
  - the one-second promotion delay, modelled as a queue of arrived wishes;
  - the per-frame gesture, scale, rotation and pulse update.
- **WishSystem** (`components/WishSystem.tsx`): flight progress, the arrival latch, the
  cubic ease, the Bézier path, and the 120-point trail shifted in place.
- **Gifts** (`components/Gifts.tsx`): the falling/landed state machine with a damped
  bounce, the idle bob, and hover scaling.
- **Ornament** (`components/Ornament.tsx`): the materialise accumulator, the
  target-scale lerp, and the hover levels.
- **Snow** (`components/SnowParticles.tsx`): the position and speed buffers, and the
  in-place fall-and-wrap loop.
- **TreeParticles** (`components/PinkTreeParticles.tsx`): the particle buffers, cone
  sampling, three-stop radial colour blending, and the pulse uniform.
- **BaseRings** (`components/BaseRings.tsx`): per-ring buffers, spin rates, and the
  per-frame spin and bob.

Modelling conventions:

- Reals stand in for JavaScript doubles.
- A `Math.random()` draw is a parameter `u` with `0 <= u < 1` (`Config.Unit`).
- The value of `Math.pow(Math.random(), 0.7)` is such a parameter too.
- `Math.sin`/`Math.cos` of the clock are parameters in [-1, 1]. The frame delta `dt` is a
  parameter; the render clock never gives a negative one.
- Placements that the source writes as `(cos a · r, y, sin a · r)` are kept as the triple
  (azimuth a, height y, planar distance r). This is `Geometry.Cyl`, and buffers hold that
  triple where the source holds x, y, z. The placement rules become statements about r
  instead of about trigonometry.
- `sqrt(d) > 0.4` is compared as `d > 0.16`.
- The snow field and the wish trail have no trigonometry and stay Cartesian. The
  quadratic Bézier curve is a polynomial and is defined exactly.

Each imperative component is a class whose methods state the whole new state in terms of
pure functions. The properties are proved about those functions. React state that is read
from the previous render inside a frame is modelled as such:

- the scene scale eases toward the openness of the previous frame;
- an ornament's target scale uses the progress of the previous frame.

Behaviour of the code that the model keeps as written:

- A gift is clamped to its resting height on every contact tick, whether it bounces
  or lands (components/Gifts.tsx:47-54).
- An ornament's mesh starts at scale 1, the three.js default, while its target scale
  starts at progress 0 (components/Ornament.tsx:73); the mesh eases toward that target from there.
- Negative frame deltas are not clamped anywhere in the code. The model asks for
  `dt >= 0` where its invariants need it.
- Configuration values are fixed constants and are never validated.
- The wish lifecycle (`SceneController.WishLifecycle`) starts at the projectile's
  arrival callback; that the flight reaches the callback exactly once is
  `WishSystem.ArrivesExactlyOnce`.

## Model

| member | source | states |
|---|---|---|
| Config.PickIndex | PinkParticleTreeScene.tsx:159 | `floor(u * n)` for a draw u is a valid palette index k < n with k <= u·n < k+1 |
| Smoothing.Lerp | PinkParticleTreeScene.tsx:203 | `v + (t - v)·α` shrinks the gap to the target by exactly the factor 1 - α, never overshoots, and never reaches the target while α < 1 |
| Smoothing.CubeMonotone | components/WishSystem.tsx:78 | x³ is nondecreasing on non-negative reals (the ease's first half) |
| Geometry.RadiusAtH | components/PinkTreeParticles.tsx:62 | the cone radius at height h is 5·(15 - h)/15, in (0, 5] for every h in [0, 15) |
| Geometry.LerpRgb | components/PinkTreeParticles.tsx:74 | every channel of a colour lerp lies between the two colours' channels |
| ScenePlacement.TreeSurfacePoint | PinkParticleTreeScene.tsx:75-85 | an ornament's height lies in [1.5, 12); there the cone radius is positive and the ornament sits exactly 0.15 outside the cone; the azimuth lies in [0, 2π) |
| ScenePlacement.DefaultOrnaments | PinkParticleTreeScene.tsx:73-88 | one ornament per default wish, with that wish's text, id default-wish-i and colour ORNAMENT_COLORS[i mod 6]; ids are distinct and every ornament is on the tree surface |
| ScenePlacement.DefaultGifts | PinkParticleTreeScene.tsx:92-109 | gift i is DefaultGift(i, dists[i]): id -(i+1) (negative and distinct), image i's URL and colour GIFT_COLORS[i mod 7]; the angle is i·1.25, y is 0.5 and the distance lies in [1.4R, 2.0R); the gift-list invariant holds |
| ScenePlacement.DefaultGift | PinkParticleTreeScene.tsx:94-107 | the i-th seeded gift has id -(i+1) and a distance in [1.4R, 2.0R) |
| ScenePlacement.NewGift | PinkParticleTreeScene.tsx:123-139 | a user gift keeps its id and image; its colour is from the palette, its angle lies in [count·1.6, count·1.6 + 0.4), and it sits at y = 0.5 with a distance in [1.3R, 2.3R) |
| ScenePlacement.AddGift | PinkParticleTreeScene.tsx:121-140 | adding a gift appends exactly one entry and leaves the earlier gifts unchanged; the new angle is above every earlier gift's angle, so the invariant (angles strictly increasing and below 1.6·count) is kept |
| ScenePlacement.RemoveWish | PinkParticleTreeScene.tsx:147 | the filter keeps exactly the wishes whose id differs from the arrived one |
| ScenePlacement.RemoveWishAppend | PinkParticleTreeScene.tsx:147 | the filter distributes over concatenation, so the remaining wishes keep their order |
| ScenePlacement.RemoveWishAbsent | PinkParticleTreeScene.tsx:147 | a list with no wish of that id is returned unchanged |
| ScenePlacement.RemoveWishCount | PinkParticleTreeScene.tsx:147 | exactly as many wishes are removed as carry the id |
| ScenePlacement.PromoteWish | PinkParticleTreeScene.tsx:150-161 | a promoted wish appends exactly one ornament with the wish's id and text, on the tree surface, with a palette colour; earlier ornaments are unchanged and the ornament invariant is kept |
| SceneController.DetectGesture | PinkParticleTreeScene.tsx:192-200 | with tracking on, a ready detector and a hand present: isOpen holds iff the squared thumb-to-little-finger distance exceeds 0.16, and the rotation target is y = (lm9.x - 0.5)·2.2, x = (lm9.y - 0.5)·1.0; otherwise the gesture is unchanged |
| SceneController.ScaleStep | PinkParticleTreeScene.tsx:202-203 | the scale moves 10% of the gap toward 2.5 when open and 1.0 when closed, never overshoots, and stays in [1, 2.5] |
| SceneController.DecayPulse | PinkParticleTreeScene.tsx:211 | a positive pulse becomes max(0, p - 0.7·dt), reaching 0 iff p <= 0.7·dt; it never rises and is never negative |
| SceneController.PulseRun | PinkParticleTreeScene.tsx:211 | over any run of frames the pulse stays in [0, its start] |
| SceneController.InteractionController.constructor | PinkParticleTreeScene.tsx:65-110 | the initial state: default ornaments and gifts, no wishes, scale 1, pulse 0, gesture closed and centred |
| SceneController.InteractionController.SetTracking | PinkParticleTreeScene.tsx:61 | toggling the camera changes only the tracking flag |
| SceneController.InteractionController.SubmitWish | PinkParticleTreeScene.tsx:113-117 | a new wish is appended to the end of the wishes; nothing else changes |
| SceneController.InteractionController.SubmitGift | PinkParticleTreeScene.tsx:121-140 | a new gift is placed by AddGift; nothing else changes |
| SceneController.InteractionController.WishArrive | PinkParticleTreeScene.tsx:146-150 | an arriving wish is filtered out by id, the pulse is set to 0.8 and the wish is queued for promotion |
| SceneController.InteractionController.PromoteNext | PinkParticleTreeScene.tsx:150-161 | the oldest queued wish becomes an ornament via PromoteWish; with an empty queue nothing changes |
| SceneController.InteractionController.Frame | PinkParticleTreeScene.tsx:191-212 | one frame: the gesture is updated by DetectGesture, the scale steps toward the previous frame's openness, the rotation lerps 5% toward the target only while tracking, and the pulse decays |
| SceneController.WishLifecycle | PinkParticleTreeScene.tsx:113-161 | submit, arrive and promote of a wish with a fresh id: the wishes end as they began, and the tree gains exactly one ornament with the wish's id and text |
| WishSystem.Ease | components/WishSystem.tsx:77-79 | the cubic in-out ease maps [0, 1] into [0, 1]; the first half stays at or below 0.5 and the second half at or above it |
| WishSystem.EaseJoins | components/WishSystem.tsx:77-79 | both branches give 0.5 at t = 0.5, with Ease(0) = 0 and Ease(1) = 1 |
| WishSystem.EaseMonotone | components/WishSystem.tsx:77-79 | the ease is nondecreasing on [0, 1] |
| WishSystem.Bezier | components/WishSystem.tsx:32 | a quadratic Bézier coordinate starts at the first control value, ends at the last, and stays between the least and greatest control values |
| WishSystem.CurvePoint | components/WishSystem.tsx:28-32 | the path runs from (0, -6, 12) to (0, 15.5, 0) and stays inside the box spanned by the three control points |
| WishSystem.Jittered | components/WishSystem.tsx:98-100 | the trail head is the curve point plus a per-axis offset in [-0.075, 0.075) |
| WishSystem.ShiftTrail | components/WishSystem.tsx:92-100 | after a flight tick, point i of the trail is the old point i-1, the old last point is dropped, and slots 0..2 hold the head |
| WishSystem.FlightStep | components/WishSystem.tsx:65-105 | a done wish is untouched; the arrival fires iff the latch was open and progress + dt/2 reached 1; the wish becomes done iff it does not fly; stored progress moves by dt/2 only on a flight tick, stays in [0, 1) and never decreases |
| WishSystem.ArrivesAtMostOnce | components/WishSystem.tsx:69-75 | from any flight state and over any tick sequence the arrival fires at most once, and never once the latch is set |
| WishSystem.ArrivesExactlyOnce | components/WishSystem.tsx:68-75 | from a wish in flight, the arrival fires exactly once iff progress + Σdt/2 reaches 1; until then the stored progress is exactly that sum |
| WishSystem.DoneIsFinal | components/WishSystem.tsx:66 | once done, further ticks change nothing and fire nothing |
| WishSystem.WishProjectile.constructor | components/WishSystem.tsx:58-63 | a new wish has progress 0, is not done, the latch is open, and all 360 trail slots are -100 |
| WishSystem.WishProjectile.ShiftAndWrite | components/WishSystem.tsx:92-100 | the descending in-place loop and head write leave the buffer equal to ShiftTrail of its old contents |
| WishSystem.WishProjectile.Tick | components/WishSystem.tsx:65-106 | the latch and progress follow FlightStep; on a flight tick the head and trail move to the eased curve point and the spin advances; on the arrival tick and afterwards the trail and head do not move |
| Gifts.FallStep | components/Gifts.tsx:41-55 | falling: v -= 15·dt and y += v·dt; on contact y is clamped to the target and either the velocity is reflected with factor -0.3 (when the speed exceeds 2) or the box lands; a landed box is unchanged; y >= target is kept |
| Gifts.FreeFallAccelerates | components/Gifts.tsx:43-44 | before contact with dt > 0 the velocity drops by exactly 15·dt and y changes by v·dt |
| Gifts.BounceDamps | components/Gifts.tsx:50-54 | a bounce keeps the box falling, reverses its direction and reduces its speed |
| Gifts.LandedIsFinal | components/Gifts.tsx:53 | a landed box stays landed at the same height over any ticks |
| Gifts.PhaseMonotone | components/Gifts.tsx:41-55 | the phase moves only from falling to landed, and a box never goes below its resting height |
| Gifts.TargetScale | components/Gifts.tsx:67 | the hover target is 1.25·boxScale when hovered and boxScale otherwise, so it lies in [0.6, 1.25) |
| Gifts.ScaleEase | components/Gifts.tsx:68 | the hover lerp shrinks the gap to its target by the factor 0.85 and does not overshoot |
| Gifts.GiftBox.constructor | components/Gifts.tsx:21-30 | a new box spawns at y = 25, falling with v = 0, with boxScale 0.6 + 0.4u and rotation offset 2πu; it starts unhovered with inner light 4, rim opacity 0.2 and body emissive 0.4 |
| Gifts.GiftBox.SetHover | components/Gifts.tsx:76-112 | hover sets the flag and switches the rendered levels at once: inner light 8/4, rim opacity 0.4/0.2, body emissive 0.8/0.4, so entering hover doubles each; fall, scale, height and rotation are unchanged |
| Gifts.GiftBox.Tick | components/Gifts.tsx:39-70 | the fall follows FallStep; while falling the mesh is at the fall height and spins by 2·dt; once landed it bobs within target ± 0.05 and sways around its offset; the scale lerps toward TargetScale; the hover levels are unchanged |
| Ornament.Materialize | components/Ornament.tsx:59-61 | one tick makes the progress min(1, p + 1.5·dt): nondecreasing, never above 1, and fixed at 1 |
| Ornament.MaterializeAfter | components/Ornament.tsx:59-61 | progress stays in [0, 1] over any run of ticks |
| Ornament.MaterializeClosedForm | components/Ornament.tsx:60 | after ticks totalling T from a start of 0, the progress is exactly min(1, 1.5·T) |
| Ornament.MaterializedAfterTwoThirds | components/Ornament.tsx:60 | progress reaches 1 once the ticks total 2/3 s |
| Ornament.TargetScale | components/Ornament.tsx:73 | the target scale is progress·1.3 when hovered and progress otherwise; it lies in [0, 1.3] and is 0 at creation |
| Ornament.Opacity | components/Ornament.tsx:102 | opacity is min(1, progress), in [0, 1] |
| Ornament.OrnamentView.constructor | components/Ornament.tsx:20-23 | a new ornament has progress 0, is not hovered, and shows emissive 0.6, core opacity 0.4 and light 0.5 |
| Ornament.OrnamentView.SetHover | components/Ornament.tsx:82-115 | hover sets the flag and switches the rendered levels at once: emissive 2.5/0.6, core opacity 0.8/0.4, light 4.0/0.5, each strictly higher on entering hover; progress, scale, position and rotation are unchanged |
| Ornament.OrnamentView.Tick | components/Ornament.tsx:58-76 | progress follows Materialize and is 1 once 2/3 s have elapsed; the scale lerps 10% toward the previous frame's target; the bob keeps y within position ± 0.03; the hover levels are unchanged |
| Snow.FlakeY | components/SnowParticles.tsx:24 | an initial height lies in [-35, 35) |
| Snow.FlakeSpeed | components/SnowParticles.tsx:26 | an initial speed lies in [0.02, 0.07) |
| Snow.FallY | components/SnowParticles.tsx:35-38 | a height either drops by exactly its speed or is reset to 35, the reset happening iff y - speed < -35; [-35, 35] is kept for a positive speed |
| Snow.FallAll | components/SnowParticles.tsx:34-39 | one frame rewrites only the y slots 3i+1, each by FallY with its own speed; the x and z slots are unchanged |
| Snow.FallKeepsBounds | components/SnowParticles.tsx:34-39 | with positive speeds, every height stays in [-35, 35] after a frame |
| Snow.SnowField.constructor | components/SnowParticles.tsx:18-29 | the position buffer has 3·4000 slots and the speed buffer 4000, filled from the draws, with heights and speeds in range |
| Snow.SnowField.Tick | components/SnowParticles.tsx:31-42 | the in-place loop leaves the buffer equal to FallAll of its old contents and keeps the bounds |
| TreeParticles.RadialFactor | components/PinkTreeParticles.tsx:70 | `(dist / radiusAtH) \|\| 0` lies in [0, 1], and for a positive radiusAtH, dist is exactly that factor times radiusAtH |
| TreeParticles.OuterWeight | components/PinkTreeParticles.tsx:74 | the outer-stop weight (rf - 0.4)·1.5 lies in (0, 0.9] |
| TreeParticles.EdgeWeight | components/PinkTreeParticles.tsx:77 | the edge-stop weight (rf - 0.8)·4 lies in (0, 0.8] |
| TreeParticles.BlendColor | components/PinkTreeParticles.tsx:71-78 | radial factor <= 0.4 gives exactly the centre colour; every channel stays between the channel-wise least and greatest of the three stops |
| TreeParticles.InnerCore | components/PinkTreeParticles.tsx:70-73 | a particle within 0.4 of the cone radius has a radial factor of at most 0.4 |
| TreeParticles.TreePoint | components/PinkTreeParticles.tsx:60-83 | a particle's height lies in [0, 15), its distance from the axis is at most the (positive) cone radius there, its azimuth lies in [0, 2π), and its colour is valid, exactly the centre colour in the inner 40% |
| TreeParticles.BuildTree | components/PinkTreeParticles.tsx:55-86 | both buffers have 3·20000 slots, and slots 3i..3i+2 hold the position and colour of TreePoint for draw i |
| TreeParticles.TreeMaterial.constructor | components/PinkTreeParticles.tsx:88-90 | the pulse uniform starts at 0 |
| TreeParticles.TreeMaterial.Frame | components/PinkTreeParticles.tsx:92-96 | after a frame the uniform equals the pulse intensity prop |
| BaseRings.RingRadius | components/BaseRings.tsx:21 | ring k has radius BASE_RADIUS·RADIUS_MULT[k], between 7.5 and 11 |
| BaseRings.RingAngle | components/BaseRings.tsx:26 | particle i's azimuth is 2π·i/1000, in [0, 2π) |
| BaseRings.AnglesEvenlySpaced | components/BaseRings.tsx:26 | neighbouring azimuths are exactly 2π/1000 apart |
| BaseRings.RingPoint | components/BaseRings.tsx:26-42 | a ring particle's planar distance lies within [-0.4, 0.4) of the ring radius (so outside the tree's base) and its height in [0.25, 0.55); its colour is white lerped toward gold with weight below 0.8, so it is never pure gold |
| BaseRings.RingSpeed | components/BaseRings.tsx:45 | ring k spins at (k+1)·0.12 |
| BaseRings.SpeedIncreasing | components/BaseRings.tsx:45 | spin speeds strictly increase with the ring index |
| BaseRings.BuildRing | components/BaseRings.tsx:21-45 | a ring's two buffers have 3·1000 slots holding RingPoint of each draw, and its speed is RingSpeed(k) |
| BaseRings.BuildRings | components/BaseRings.tsx:19-47 | one filled ring per radius multiplier, in order |
| BaseRings.RingGroup.constructor | components/BaseRings.tsx:61-64 | every ring starts unrotated at height 0 |
| BaseRings.RingGroup.Frame | components/BaseRings.tsx:49-58 | each frame ring k's spin grows by RingSpeed(k)·0.005 and its bob is sin·0.15, within ±0.15; after n frames the spin is n·RingSpeed(k)·0.005 |
| BaseRings.OuterRingsAhead | components/BaseRings.tsx:54 | after any positive number of frames an outer ring has turned further than an inner one |

## Left out

- Trigonometry, `Math.pow` and `Math.sqrt`: their values are bounded inputs. Positions
  are kept as (azimuth, height, planar distance) rather than as the x, y, z the buffers
  hold, so the conversion by cos/sin is not modelled.
- Float32 buffers and IEEE doubles: the model uses exact reals. For example, rounding in
  5·2.3 or in a Float32 store is out of scope.
- Colour management: colour stops are the sRGB hex channels / 255, while three.js may
  convert them to linear values internally. The glow colours (`multiplyScalar`) are left
  out as well.
- MediaPipe initialisation, `getUserMedia` and stopping the video tracks
  (PinkParticleTreeScene.tsx:164-189): asynchronous I/O. The detector result enters
  `InteractionController.Frame` as a readiness flag and a snapshot of hand landmarks.
  The depth coordinate of a landmark is unused.
- The 1000 ms promotion delay: the queue records the order in which timers fire.
  When they fire is left to the caller of `PromoteNext`.
- React scheduling beyond the stale reads modelled above:
  - Each `useFrame` is one synchronous method call.
  - The wish component's `setIsDone`/`setProgress` take effect within the tick.
  - The new-wish and new-gift effects are method calls.
  - The `onWishComplete`/`onGiftComplete` notifications to the page are left out.
- The refs are assumed mounted: the `if (ref.current)` guards are taken as always true.
  An unmounted gift would not advance its fall at all.
- The wish component's star particle cloud (components/WishSystem.tsx:34-56) is static
  decoration and is not part of this model. So are the ornament's star shape, the gift
  box meshes and the ribbons.
- The GLSL shaders (components/PinkTreeParticles.tsx:14-50), render assembly (canvas,
  orbit controls, bloom, lights), `App.tsx` (forms, file loading, modals),
  `components/StarTop.tsx` and `components/HeartTop.tsx` are not part of this model.
  In particular the blank-input guard on wish submission lives in `App.tsx`, so
  `SubmitWish` accepts any text.
- The tree's `unleashFactor` prop is never read by the source, and `SNOW_CONFIG.SPEED`
  is never used: neither appears in the model.
- Click, hover and cursor handlers are UI events. Hover enters the model only through
  `SetHover`.
- Ornament.OrnamentView.Tick: requires `dt >= 0`, supplied by the render clock, because
  the source has no clamp for a negative delta.
- WishSystem.WishProjectile.Tick: requires `dt >= 0` for the same reason.
  `SceneController.InteractionController.Frame` requires it too.
- Snow.FlakeX and Snow.FlakeZ give the x and z formulas without a stated range. Only
  heights and speeds take part in the bounds invariant.
