/** Scene configuration (constants.ts) and the two decoration palettes of the scene root. */
module Config {

  /** JavaScript's Math.PI, a double, written out. */
  const PI: real := 3.141592653589793
  const TWO_PI: real := 2.0 * PI

  // TREE_CONFIG
  const PARTICLE_COUNT: nat := 20000
  const HEIGHT: real := 15.0
  const BASE_RADIUS: real := 5.0

  // SNOW_CONFIG
  const SNOW_COUNT: nat := 4000
  const BOUNDS_X: real := 50.0
  const BOUNDS_Y: real := 35.0
  const BOUNDS_Z: real := 50.0

  // BASE_RINGS_CONFIG
  const RADIUS_MULT: seq<real> := [1.5, 1.85, 2.2]
  const PARTICLES_PER_RING: nat := 1000

  /** An RGB colour with channels in [0, 1]. */
  datatype Rgb = Rgb(r: real, g: real, b: real)

  predicate ValidRgb(c: Rgb) {
    0.0 <= c.r <= 1.0 && 0.0 <= c.g <= 1.0 && 0.0 <= c.b <= 1.0
  }

  // Colour stops, channel / 255 of their hex codes
  const CENTER_COLOR: Rgb := Rgb(1.0, 128.0 / 255.0, 192.0 / 255.0)   // #ff80c0
  const OUTER_COLOR: Rgb := Rgb(1.0, 224.0 / 255.0, 237.0 / 255.0)    // #ffe0ed
  const EDGE_COLOR: Rgb := Rgb(1.0, 1.0, 1.0)                         // #ffffff
  const WHITE_COLOR: Rgb := Rgb(1.0, 1.0, 1.0)                        // #ffffff
  const GOLD_COLOR: Rgb := Rgb(1.0, 215.0 / 255.0, 0.0)               // #ffd700

  const DEFAULT_GIFT_IMAGES: seq<string> := [
    "https://pub-186562a1884d41cab825cea6778eec78.r2.dev/IMG_1985.jpg",
    "https://pub-186562a1884d41cab825cea6778eec78.r2.dev/IMG_1986.jpg",
    "https://pub-186562a1884d41cab825cea6778eec78.r2.dev/IMG_1987.jpg",
    "https://pub-186562a1884d41cab825cea6778eec78.r2.dev/IMG_5316.jpg",
    "https://pub-186562a1884d41cab825cea6778eec78.r2.dev/IMG_7368.jpg"
  ]

  /** The texts of the five ornaments the tree starts with. */
  const DEFAULT_WISHES: seq<string> := [
    "MISS U SO MUCH",
    "希望你在我身边",
    "早日遇到你爱也真诚爱你的男人",
    "祝你平安顺遂的度过这个本命年尾巴",
    "最好的熹，见字如晤，今年真的是发生了很多事情的一年呢。我好像终于学会了及时止损，拥有了大刀阔斧斩断消耗自己的关系的决心，无论是爱情还是友情。代价是，冻结了我的期待、相信和热情。于是我把自己蜷缩起来度过这个秋冬，感受平和。我有默默想念很多次打个车就去你家过周末的时刻，在沙漠里看星空的时刻，一起蹦了不知道多少场迪...也在适应不擅长的异地关系。慢慢学会接受关系的“平淡”，荣亲的珍贵在与细水长流。其实我觉得咱们俩都是情感内敛，报喜不报忧的类型。但如果你需要我，我一直都在。春天就要来啦，我们一定都会幸福的！爱你的JBL"
  ]

  // Palettes of the scene root, as the hex strings the materials receive
  const GIFT_COLORS: seq<string> := ["#ff0055", "#00ffcc", "#ffcc00", "#ffffff", "#7d00ff", "#ff5500", "#0099ff"]
  const ORNAMENT_COLORS: seq<string> := ["#ffd700", "#ff007f", "#e5b09e", "#fff4e0", "#ffcce6", "#ffffff"]

  /** A draw of Math.random(): a real in [0, 1). */
  predicate Unit(u: real) {
    0.0 <= u < 1.0
  }

  /** Index into a palette of n entries by Math.floor(Math.random() * n). */
  function PickIndex(u: real, n: nat): (k: nat)
    requires Unit(u) && n > 0
    ensures k < n
    ensures k as real <= u * n as real < k as real + 1.0
  {
    var f := (u * n as real).Floor;
    assert 0.0 <= u * n as real < n as real;
    f as nat
  }
}
