/**
 * The decoration records owned by the scene root and the closed-form rules that
 * place them: default ornaments and gifts, a user gift appended with an advancing
 * angle, an arrived wish removed from the flight list, and its promotion to an
 * ornament on the tree surface.
 */
module ScenePlacement {
  import opened Config
  import opened Geometry
  import opened Smoothing

  /** Default ornaments carry the string id `default-wish-<i>`, promoted wishes the wish's numeric id. */
  datatype OrnamentId = DefaultWish(index: nat) | WishId(stamp: int)

  datatype OrnamentRec = OrnamentRec(id: OrnamentId, text: string, pos: Cyl, color: string)
  datatype GiftRec = GiftRec(id: int, imageUrl: string, color: string, pos: Cyl)
  datatype WishRec = WishRec(id: int, text: string)

  /** The two Math.random() draws of one tree-surface placement. */
  datatype SurfaceDraw = SurfaceDraw(height: real, angle: real)

  predicate ValidSurfaceDraw(d: SurfaceDraw) {
    Unit(d.height) && Unit(d.angle)
  }

  const SURFACE_MIN_H: real := 1.5
  const SURFACE_MARGIN: real := 0.15
  const GIFT_Y: real := 0.5
  const DEFAULT_GIFT_STEP: real := 1.25
  const NEW_GIFT_STEP: real := 1.6
  const NEW_GIFT_JITTER: real := 0.4

  /** Highest sampled ornament height, exclusive: 0.7 * HEIGHT + 1.5. */
  function SurfaceMaxH(): real { HEIGHT * 0.7 + SURFACE_MIN_H }

  /** An ornament position: a height in the lower 70% of the tree, just outside the cone there. */
  predicate OnTreeSurface(p: Cyl) {
    SURFACE_MIN_H <= p.y < SurfaceMaxH() && p.radial == RadiusAtH(p.y) + SURFACE_MARGIN
  }

  /** A gift position: on the ground plane y = 0.5, in the annulus [1.3, 2.3) base radii. */
  predicate InGiftAnnulus(p: Cyl) {
    p.y == GIFT_Y && BASE_RADIUS * 1.3 <= p.radial < BASE_RADIUS * 2.3
  }

  predicate OrnamentsValid(os: seq<OrnamentRec>) {
    forall k :: 0 <= k < |os| ==> OnTreeSurface(os[k].pos) && os[k].color in ORNAMENT_COLORS
  }

  /**
   * Gifts sit in the annulus, take their colour from the palette, and their angles rise
   * strictly along the list while staying below 1.6 times the gift count — the headroom
   * that lets the next incremental gift's angle exceed all of them.
   */
  predicate GiftsValid(gs: seq<GiftRec>) {
    (forall k :: 0 <= k < |gs| ==> InGiftAnnulus(gs[k].pos) && gs[k].color in GIFT_COLORS) &&
    (forall j, k :: 0 <= j < k < |gs| ==> gs[j].pos.angle < gs[k].pos.angle) &&
    (forall k :: 0 <= k < |gs| ==> gs[k].pos.angle < |gs| as real * NEW_GIFT_STEP)
  }

  /** The tree-surface sample shared by default ornaments and promoted wishes. */
  function TreeSurfacePoint(d: SurfaceDraw): (p: Cyl)
    requires ValidSurfaceDraw(d)
    ensures OnTreeSurface(p)
    ensures 0.0 < RadiusAtH(p.y) < p.radial
    ensures 0.0 <= p.angle < TWO_PI
  {
    var h := d.height * (HEIGHT * 0.7) + SURFACE_MIN_H;
    Cyl(d.angle * PI * 2.0, h, RadiusAtH(h) + SURFACE_MARGIN)
  }

  /** One ornament per default wish: its text, id `default-wish-i`, colour i mod 6, a surface position. */
  function DefaultOrnaments(draws: seq<SurfaceDraw>): (os: seq<OrnamentRec>)
    requires |draws| == |DEFAULT_WISHES|
    requires forall k :: 0 <= k < |draws| ==> ValidSurfaceDraw(draws[k])
    ensures |os| == |DEFAULT_WISHES|
    ensures forall i :: 0 <= i < |os| ==>
      os[i].id == DefaultWish(i) && os[i].text == DEFAULT_WISHES[i] &&
      os[i].color == ORNAMENT_COLORS[i % |ORNAMENT_COLORS|]
    ensures forall i, j :: 0 <= i < j < |os| ==> os[i].id != os[j].id
    ensures OrnamentsValid(os)
  {
    seq(|DEFAULT_WISHES|, i requires 0 <= i < |DEFAULT_WISHES| =>
      OrnamentRec(DefaultWish(i), DEFAULT_WISHES[i], TreeSurfacePoint(draws[i]),
                  ORNAMENT_COLORS[i % |ORNAMENT_COLORS|]))
  }

  /** The seeded gift rule: angle i * 1.25, distance in [1.4, 2.0) base radii, id -(i + 1). */
  function DefaultGifts(dists: seq<real>): (gs: seq<GiftRec>)
    requires |dists| == |DEFAULT_GIFT_IMAGES|
    requires forall k :: 0 <= k < |dists| ==> Unit(dists[k])
    ensures |gs| == |DEFAULT_GIFT_IMAGES|
    ensures forall i :: 0 <= i < |gs| ==> gs[i] == DefaultGift(i, dists[i])
    ensures forall i :: 0 <= i < |gs| ==>
      gs[i].id == -(i + 1) && gs[i].id < 0 && gs[i].imageUrl == DEFAULT_GIFT_IMAGES[i] &&
      gs[i].color == GIFT_COLORS[i % |GIFT_COLORS|] &&
      gs[i].pos.angle == i as real * DEFAULT_GIFT_STEP && gs[i].pos.y == GIFT_Y &&
      BASE_RADIUS * 1.4 <= gs[i].pos.radial < BASE_RADIUS * 2.0
    ensures forall i, j :: 0 <= i < j < |gs| ==> gs[i].id != gs[j].id
    ensures GiftsValid(gs)
  {
    seq(|DEFAULT_GIFT_IMAGES|, i requires 0 <= i < |DEFAULT_GIFT_IMAGES| =>
      DefaultGift(i, dists[i]))
  }

  function DefaultGift(i: nat, u: real): (g: GiftRec)
    requires i < |DEFAULT_GIFT_IMAGES| && Unit(u)
    ensures g.id == -(i + 1)
    ensures BASE_RADIUS * 1.4 <= g.pos.radial < BASE_RADIUS * 2.0
  {
    var radiusMin := BASE_RADIUS * 1.4;
    var radiusMax := BASE_RADIUS * 2.0;
    GiftRec(-(i + 1), DEFAULT_GIFT_IMAGES[i], GIFT_COLORS[i % |GIFT_COLORS|],
            Cyl(i as real * DEFAULT_GIFT_STEP, GIFT_Y, radiusMin + u * (radiusMax - radiusMin)))
  }

  /** The gift a user adds when `count` gifts are already placed. */
  function NewGift(count: nat, id: int, imageUrl: string, uAngle: real, uDist: real, uColor: real): (g: GiftRec)
    requires Unit(uAngle) && Unit(uDist) && Unit(uColor)
    ensures g.id == id && g.imageUrl == imageUrl && g.color in GIFT_COLORS
    ensures count as real * NEW_GIFT_STEP <= g.pos.angle < count as real * NEW_GIFT_STEP + NEW_GIFT_JITTER
    ensures InGiftAnnulus(g.pos)
  {
    var radiusMin := BASE_RADIUS * 1.3;
    var radiusMax := BASE_RADIUS * 2.3;
    var angle := count as real * NEW_GIFT_STEP + uAngle * NEW_GIFT_JITTER;
    var dist := radiusMin + uDist * (radiusMax - radiusMin);
    GiftRec(id, imageUrl, GIFT_COLORS[PickIndex(uColor, |GIFT_COLORS|)], Cyl(angle, GIFT_Y, dist))
  }

  /**
   * Appending a user gift: exactly one new entry, earlier gifts untouched, and its angle
   * strictly above every earlier gift's angle, so the list invariant is kept.
   */
  function AddGift(gs: seq<GiftRec>, id: int, imageUrl: string, uAngle: real, uDist: real, uColor: real): (r: seq<GiftRec>)
    requires Unit(uAngle) && Unit(uDist) && Unit(uColor)
    ensures |r| == |gs| + 1 && r[..|gs|] == gs
    ensures r[|gs|].id == id && r[|gs|].imageUrl == imageUrl
    ensures |gs| as real * NEW_GIFT_STEP <= r[|gs|].pos.angle < |gs| as real * NEW_GIFT_STEP + NEW_GIFT_JITTER
    ensures InGiftAnnulus(r[|gs|].pos)
    ensures GiftsValid(gs) ==> GiftsValid(r) && forall k :: 0 <= k < |gs| ==> gs[k].pos.angle < r[|gs|].pos.angle
  {
    var g := NewGift(|gs|, id, imageUrl, uAngle, uDist, uColor);
    var r := gs + [g];
    assert r[..|gs|] == gs;
    assert GiftsValid(gs) ==> GiftsValid(r) by {
      if GiftsValid(gs) {
        var n := |gs| as real;
        assert forall k :: 0 <= k < |r| ==> r[k].pos.angle < (n + 1.0) * NEW_GIFT_STEP by {
          forall k | 0 <= k < |r| ensures r[k].pos.angle < (n + 1.0) * NEW_GIFT_STEP {
            if k < |gs| { assert r[k] == gs[k]; }
          }
        }
      }
    }
    r
  }

  /** Filtering out an arrived wish: `wishes.filter(w => w.id !== id)`. */
  function RemoveWish(ws: seq<WishRec>, id: int): (r: seq<WishRec>)
    ensures |r| <= |ws|
    ensures forall w :: w in r <==> w in ws && w.id != id
  {
    if ws == [] then []
    else (if ws[0].id == id then [] else [ws[0]]) + RemoveWish(ws[1..], id)
  }

  /** Removal keeps order: it distributes over concatenation. */
  lemma {:induction false} RemoveWishAppend(a: seq<WishRec>, b: seq<WishRec>, id: int)
    ensures RemoveWish(a + b, id) == RemoveWish(a, id) + RemoveWish(b, id)
  {
    if a != [] {
      assert (a + b)[1..] == a[1..] + b;
      RemoveWishAppend(a[1..], b, id);
    } else {
      assert a + b == b;
    }
  }

  /** A list in which no wish has the id is left exactly as it was. */
  lemma {:induction false} RemoveWishAbsent(ws: seq<WishRec>, id: int)
    requires forall k :: 0 <= k < |ws| ==> ws[k].id != id
    ensures RemoveWish(ws, id) == ws
  {
    if ws != [] {
      RemoveWishAbsent(ws[1..], id);
      assert [ws[0]] + ws[1..] == ws;
    }
  }

  /** The number of wishes removed is the number carrying the id. */
  function CountId(ws: seq<WishRec>, id: int): nat
  {
    if ws == [] then 0 else (if ws[0].id == id then 1 else 0) + CountId(ws[1..], id)
  }

  lemma {:induction false} RemoveWishCount(ws: seq<WishRec>, id: int)
    ensures |RemoveWish(ws, id)| == |ws| - CountId(ws, id)
  {
    if ws != [] {
      RemoveWishCount(ws[1..], id);
    }
  }

  /** The ornament an arrived wish becomes: same id and text, a fresh surface position, a palette colour. */
  function PromoteWish(os: seq<OrnamentRec>, w: WishRec, d: SurfaceDraw, uColor: real): (r: seq<OrnamentRec>)
    requires ValidSurfaceDraw(d) && Unit(uColor)
    ensures |r| == |os| + 1 && r[..|os|] == os
    ensures r[|os|].id == WishId(w.id) && r[|os|].text == w.text
    ensures OnTreeSurface(r[|os|].pos) && r[|os|].color in ORNAMENT_COLORS
    ensures OrnamentsValid(os) ==> OrnamentsValid(r)
  {
    var o := OrnamentRec(WishId(w.id), w.text, TreeSurfacePoint(d),
                         ORNAMENT_COLORS[PickIndex(uColor, |ORNAMENT_COLORS|)]);
    var r := os + [o];
    assert r[..|os|] == os;
    r
  }
}
