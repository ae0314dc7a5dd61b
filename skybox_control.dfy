/**
 * `PanoramicSkyboxControl`: the greatest common divisor loop, the reduced
 * aspect-ratio text, the exposure ramp of a fade and the choice of the
 * panoramic shader's layout parameters from a texture's aspect ratio.
 */
module PanoramicSkyboxControl {
  import opened Wrappers
  import opened Strings

  // ---------------------------------------------------------------------
  // Greatest common divisor
  // ---------------------------------------------------------------------

  /** `d` is a positive divisor of `n`. */
  predicate Divides(d: nat, n: nat) {
    d > 0 && n % d == 0
  }

  /** The largest number dividing both `a` and `b` (for `a`, `b` not both zero). */
  ghost predicate IsGreatestCommonDivisor(g: nat, a: nat, b: nat) {
    && Divides(g, a)
    && Divides(g, b)
    && forall d: nat :: Divides(d, a) && Divides(d, b) ==> d <= g
  }

  /** Euclid's algorithm as a recursive definition. */
  function Gcd(a: nat, b: nat): nat
    decreases b
  {
    if b == 0 then a else Gcd(b, a % b)
  }

  // Small arithmetic steps, each proved in a context of its own.

  lemma MulAtLeast(m: int, n: int)
    requires m > 0 && n >= 1
    ensures m * n >= m
  {
  }

  lemma MulSub(m: int, a: int, b: int)
    ensures m * a - m * b == m * (a - b)
  {
  }

  lemma MulAdd(m: int, a: int, b: int)
    ensures m * a + m * b == m * (a + b)
  {
  }

  lemma MulAssoc(a: int, b: int, c: int)
    ensures a * b * c == a * (b * c)
  {
  }

  lemma MulComm(a: int, b: int)
    ensures a * b == b * a
  {
  }

  lemma MulCancel(k: int, a: int, b: int)
    requires k != 0 && k * a == k * b
    ensures a == b
  {
    MulSub(k, a, b);
  }

  lemma DivModSplit(a: nat, b: nat)
    requires b > 0
    ensures a == b * (a / b) + a % b
  {
  }

  /** Quotient and remainder are the only ones that fit `x == m * q + r`. */
  lemma DivModUnique(x: int, m: int, q: int, r: int)
    requires m > 0 && x == m * q + r && 0 <= r < m
    ensures x / m == q && x % m == r
  {
    var q', r' := x / m, x % m;
    assert x == m * q' + r' && 0 <= r' < m;
    MulSub(m, q, q');
    if q > q' {
      MulAtLeast(m, q - q');
    } else if q < q' {
      MulSub(m, q', q);
      MulAtLeast(m, q' - q);
    }
  }

  lemma MultipleDivisible(d: nat, n: nat)
    requires d > 0
    ensures Divides(d, d * n)
  {
    DivModUnique(d * n, d, n, 0);
  }

  lemma DividesAsProduct(d: nat, n: nat)
    requires Divides(d, n)
    ensures n == d * (n / d)
  {
  }

  lemma DividesMul(d: nat, n: nat, k: nat)
    requires Divides(d, n)
    ensures Divides(d, n * k)
  {
    var x := n / d;
    DividesAsProduct(d, n);
    MulAssoc(d, x, k);
    MultipleDivisible(d, x * k);
  }

  lemma DividesAdd(d: nat, u: nat, v: nat)
    requires Divides(d, u) && Divides(d, v)
    ensures Divides(d, u + v)
  {
    DividesAsProduct(d, u);
    DividesAsProduct(d, v);
    MulAdd(d, u / d, v / d);
    MultipleDivisible(d, u / d + v / d);
  }

  lemma DividesSub(d: nat, u: nat, v: nat)
    requires Divides(d, u) && Divides(d, v) && v <= u
    ensures Divides(d, u - v)
  {
    DividesAsProduct(d, u);
    DividesAsProduct(d, v);
    MulSub(d, u / d, v / d);
    if u / d < v / d {
      MulAtLeast(d, v / d - u / d);
      MulSub(d, v / d, u / d);
    }
    MultipleDivisible(d, u / d - v / d);
  }

  lemma DivisorAtMost(d: nat, n: nat)
    requires Divides(d, n) && n > 0
    ensures d <= n
  {
    DividesAsProduct(d, n);
    MulAtLeast(d, n / d);
  }

  /** Scaling both operands of `%` scales the remainder. */
  lemma ModScale(a: nat, b: nat, k: nat)
    requires b > 0 && k > 0
    ensures (k * a) % (k * b) == k * (a % b)
  {
    var q, r := a / b, a % b;
    assert a == b * q + r;
    MulAdd(k, b * q, r);
    MulAssoc(k, b, q);
    assert k * a == (k * b) * q + k * r;
    assert k * r < k * b by {
      MulSub(k, b, r);
      MulAtLeast(k, b - r);
    }
    DivModUnique(k * a, k * b, q, k * r);
  }

  /** gcd(k a, k b) = k gcd(a, b). */
  lemma {:induction false} GcdScale(a: nat, b: nat, k: nat)
    requires k > 0
    ensures Gcd(k * a, k * b) == k * Gcd(a, b)
    decreases b
  {
    if b != 0 {
      ModScale(a, b, k);
      GcdScale(b, a % b, k);
    }
  }

  lemma {:induction false} GcdDividesBoth(a: nat, b: nat)
    requires a > 0 || b > 0
    ensures Divides(Gcd(a, b), a) && Divides(Gcd(a, b), b)
    decreases b
  {
    if b != 0 {
      var g := Gcd(b, a % b);
      assert Gcd(a, b) == g;
      GcdDividesBoth(b, a % b);
      var m := b * (a / b);
      DividesMul(g, b, a / b);
      DividesAdd(g, m, a % b);
      DivModSplit(a, b);
    }
  }

  lemma {:induction false} GcdGreatest(a: nat, b: nat, d: nat)
    requires Divides(d, a) && Divides(d, b)
    ensures Divides(d, Gcd(a, b))
    decreases b
  {
    if b != 0 {
      var m := b * (a / b);
      DivModSplit(a, b);
      DividesMul(d, b, a / b);
      DividesSub(d, a, m);
      assert a - m == a % b;
      GcdGreatest(b, a % b, d);
    }
  }

  /** Euclid's recursion computes the greatest common divisor. */
  lemma GcdIsGreatest(a: nat, b: nat)
    requires a > 0 || b > 0
    ensures Gcd(a, b) > 0
    ensures IsGreatestCommonDivisor(Gcd(a, b), a, b)
  {
    GcdDividesBoth(a, b);
    forall d: nat | Divides(d, a) && Divides(d, b)
      ensures d <= Gcd(a, b)
    {
      GcdGreatest(a, b, d);
      DivisorAtMost(d, Gcd(a, b));
    }
  }

  lemma GcdZeroLeft(q: nat)
    ensures Gcd(0, q) == q
  {
    if q != 0 {
      assert Gcd(0, q) == Gcd(q, 0);
    }
  }

  /**
   * `FindGCD`: the while loop that replaces (a, b) by (b, a % b) until b is 0.
   * C#'s `%` agrees with Dafny's on the non-negative sizes it is given.
   */
  method FindGCD(a: int, b: int) returns (r: int)
    requires a >= 0 && b >= 0
    ensures r == Gcd(a, b)
    ensures b == 0 ==> r == a
    ensures a > 0 || b > 0 ==> IsGreatestCommonDivisor(r, a, b)
  {
    var x, y := a, b;
    while y != 0
      invariant x >= 0 && y >= 0
      invariant Gcd(x, y) == Gcd(a, b)
      decreases y
    {
      var temp := y;
      y := x % y;
      x := temp;
    }
    r := x;
    if a > 0 || b > 0 {
      GcdIsGreatest(a, b);
    }
  }

  /** Euclid's lemma: if `p` divides `q * x` and shares no factor with `q`, it divides `x`. */
  lemma EuclidDivides(p: nat, q: nat, x: nat)
    requires Gcd(p, q) == 1 && Divides(p, q * x)
    ensures Divides(p, x)
  {
    if x == 0 {
      assert Divides(p, x);
    } else {
      GcdScale(p, q, x);
      MultipleDivisible(p, x);
      MulComm(x, p);
      MulComm(x, q);
      GcdGreatest(x * p, x * q, p);
    }
  }

  lemma ZeroSide(p: nat, q: nat, p': nat, q': nat)
    requires Gcd(p, q) == 1 && Gcd(p', q') == 1
    requires p * q' == q * p'
    ensures p == 0 ==> p' == 0 && q == 1 && q' == 1
  {
    if p == 0 {
      GcdZeroLeft(q);
      assert p' == q * p';
      GcdZeroLeft(q');
    }
  }

  lemma PositiveProportionUnique(p: nat, q: nat, p': nat, q': nat)
    requires Gcd(p, q) == 1 && Gcd(p', q') == 1
    requires p * q' == q * p'
    requires p > 0 && p' > 0
    ensures p == p' && q == q'
  {
    assert Divides(p, q * p') by {
      MultipleDivisible(p, q');
    }
    EuclidDivides(p, q, p');
    assert Divides(p', q' * p) by {
      MulComm(q', p);
      MulComm(q, p');
      MultipleDivisible(p', q);
    }
    EuclidDivides(p', q', p);
    DivisorAtMost(p, p');
    DivisorAtMost(p', p);
    MulCancel(p, q', q);
  }

  /** Two coprime pairs in the same proportion are the same pair. */
  lemma CoprimeProportionUnique(p: nat, q: nat, p': nat, q': nat)
    requires Gcd(p, q) == 1 && Gcd(p', q') == 1
    requires p * q' == q * p'
    ensures p == p' && q == q'
  {
    ZeroSide(p, q, p', q');
    MulComm(p, q');
    MulComm(q, p');
    ZeroSide(p', q', p, q);
    if p != 0 {
      PositiveProportionUnique(p, q, p', q');
    }
  }

  lemma CrossCancel(p: nat, q: nat, p0: nat, q0: nat, g: nat)
    requires g > 0 && p * (g * q0) == q * (g * p0)
    ensures p * q0 == q * p0
  {
    MulAssoc(p, g, q0);
    MulAssoc(q, g, p0);
    MulComm(p, g);
    MulComm(q, g);
    MulAssoc(g, p, q0);
    MulAssoc(g, q, p0);
    MulCancel(g, p * q0, q * p0);
  }

  lemma ScaledProportion(p0: nat, q0: nat, g: nat)
    ensures p0 * (g * q0) == q0 * (g * p0)
  {
    MulAssoc(p0, g, q0);
    MulAssoc(q0, g, p0);
    MulComm(p0, g);
    MulComm(q0, g);
    MulAssoc(g, p0, q0);
    MulAssoc(g, q0, p0);
    MulComm(p0, q0);
  }

  lemma ProportionOfScaled(p0: nat, q0: nat, g: nat, width: nat, height: nat)
    requires width == g * p0 && height == g * q0
    ensures p0 * height == q0 * width
  {
    ScaledProportion(p0, q0, g);
  }

  // ---------------------------------------------------------------------
  // Aspect ratio
  // ---------------------------------------------------------------------

  /**
   * `CalculateAspectRatio`: "w:h" for the size divided by its greatest common
   * divisor. `None` stands for the division by zero that a 0 x 0 size causes.
   */
  function CalculateAspectRatio(width: nat, height: nat): (r: Option<string>)
    ensures r.None? <==> width == 0 && height == 0
  {
    var g := Gcd(width, height);
    if g == 0 then
      assert width > 0 || height > 0 ==> g > 0 by {
        if width > 0 || height > 0 {
          GcdDividesBoth(width, height);
        }
      }
      None
    else
      Some(FormatRatio(width / g, height / g))
  }

  /** The parts of the reduced ratio, named without the divisions that compute them. */
  lemma ReducedParts(width: nat, height: nat) returns (g: nat, p0: nat, q0: nat)
    requires width > 0 || height > 0
    ensures g > 0 && g == Gcd(width, height)
    ensures width == g * p0 && height == g * q0
    ensures Gcd(p0, q0) == 1
    ensures CalculateAspectRatio(width, height) == Some(FormatRatio(p0, q0))
  {
    g := Gcd(width, height);
    GcdDividesBoth(width, height);
    p0, q0 := width / g, height / g;
    DividesAsProduct(g, width);
    DividesAsProduct(g, height);
    GcdScale(p0, q0, g);
    assert g * Gcd(p0, q0) == g * 1;
  }

  /** The reduced pair of a size `g * p0` by `g * q0` with coprime parts is (p0, q0), and only it. */
  lemma ReducedPairCharacterized(p0: nat, q0: nat, g: nat, p: nat, q: nat)
    requires g > 0 && Gcd(p0, q0) == 1
    ensures (p == p0 && q == q0) <==> Gcd(p, q) == 1 && p * (g * q0) == q * (g * p0)
  {
    ScaledProportion(p0, q0, g);
    if Gcd(p, q) == 1 && p * (g * q0) == q * (g * p0) {
      CrossCancel(p, q, p0, q0, g);
      CoprimeProportionUnique(p, q, p0, q0);
    }
  }

  lemma RatioTextIsReducedProportion(width: nat, height: nat, p: nat, q: nat)
    requires width > 0 || height > 0
    requires CalculateAspectRatio(width, height) == Some(FormatRatio(p, q))
    ensures Gcd(p, q) == 1 && p * height == q * width
  {
    var g, p0, q0 := ReducedParts(width, height);
    ProportionOfScaled(p0, q0, g, width, height);
    FormatRatioInjective(p0, q0, p, q);
  }

  lemma ReducedProportionGivesRatioText(width: nat, height: nat, p: nat, q: nat)
    requires width > 0 || height > 0
    requires Gcd(p, q) == 1 && p * height == q * width
    ensures CalculateAspectRatio(width, height) == Some(FormatRatio(p, q))
  {
    var g, p0, q0 := ReducedParts(width, height);
    ReducedPairCharacterized(p0, q0, g, p, q);
  }

  /**
   * The ratio text is "p:q" exactly when p and q share no factor and p:q is
   * the proportion width:height.
   */
  lemma AspectRatioIsReducedProportion(width: nat, height: nat, p: nat, q: nat)
    requires width > 0 || height > 0
    ensures CalculateAspectRatio(width, height) == Some(FormatRatio(p, q))
      <==> Gcd(p, q) == 1 && p * height == q * width
  {
    if CalculateAspectRatio(width, height) == Some(FormatRatio(p, q)) {
      RatioTextIsReducedProportion(width, height, p, q);
    }
    if Gcd(p, q) == 1 && p * height == q * width {
      ReducedProportionGivesRatioText(width, height, p, q);
    }
  }

  lemma ScaleProportion(p: nat, q: nat, width: nat, height: nat, k: nat)
    requires p * height == q * width
    ensures p * (k * height) == q * (k * width)
  {
    MulAssoc(p, k, height);
    MulAssoc(q, k, width);
    MulComm(p, k);
    MulComm(q, k);
    MulAssoc(k, p, height);
    MulAssoc(k, q, width);
  }

  /** Scaling both sides of a size by the same factor gives the same ratio text. */
  lemma AspectRatioScaleInvariant(width: nat, height: nat, k: nat)
    requires width > 0 || height > 0
    requires k > 0
    ensures CalculateAspectRatio(k * width, k * height) == CalculateAspectRatio(width, height)
  {
    var g, p0, q0 := ReducedParts(width, height);
    ProportionOfScaled(p0, q0, g, width, height);
    ScaleProportion(p0, q0, width, height, k);
    assert k * width > 0 || k * height > 0 by {
      if width > 0 {
        MulAtLeast(k, width);
      } else {
        MulAtLeast(k, height);
      }
    }
    ReducedProportionGivesRatioText(k * width, k * height, p0, q0);
  }

  // ---------------------------------------------------------------------
  // Fade
  // ---------------------------------------------------------------------

  /** The number of exposure steps of a fade. */
  const Steps: int := 100

  /** `type.ToLower() == "fadein"`: any other value fades out. */
  predicate IsFadeIn(kind: string) {
    ToLower(kind) == "fadein"
  }

  lemma FadeKinds()
    ensures IsFadeIn("fadeIn") && IsFadeIn("FadeIn")
    ensures !IsFadeIn("fadeOut") && !IsFadeIn("")
  {
    assert ToLower("fadeIn") == "fadein";
    assert ToLower("FadeIn") == "fadein";
  }

  /**
   * The exposure numerators (over `Steps`) a fade writes, in order. The
   * counter moves before each write, so a fade-in ends one step above full
   * exposure and a fade-out one step below zero.
   */
  function FadeRamp(fadeIn: bool): (ramp: seq<int>)
    ensures |ramp| == Steps + 1
    ensures fadeIn ==> ramp[0] == 1 && ramp[Steps] == Steps + 1
    ensures !fadeIn ==> ramp[0] == Steps - 1 && ramp[Steps] == -1
  {
    seq(Steps + 1, k requires 0 <= k <= Steps => if fadeIn then k + 1 else Steps - 1 - k)
  }

  /** A fade-in only ever raises the exposure and a fade-out only lowers it, one step at a time. */
  lemma FadeRampMonotone(fadeIn: bool)
    ensures fadeIn ==> forall j, k :: 0 <= j < k <= Steps ==> FadeRamp(fadeIn)[j] < FadeRamp(fadeIn)[k]
    ensures !fadeIn ==> forall j, k :: 0 <= j < k <= Steps ==> FadeRamp(fadeIn)[j] > FadeRamp(fadeIn)[k]
    ensures forall k :: 0 <= k < Steps ==> FadeRamp(fadeIn)[k + 1] - FadeRamp(fadeIn)[k] == if fadeIn then 1 else -1
  {
  }

  /** The exposure a numerator stands for. */
  function Exposure(numerator: int): real {
    numerator as real / Steps as real
  }

  /** The final write of a fade-in is 101/100 and that of a fade-out is -1/100. */
  lemma FadeOvershoots()
    ensures Exposure(FadeRamp(true)[Steps]) > 1.0
    ensures Exposure(FadeRamp(false)[Steps]) < 0.0
  {
  }

  /**
   * `SkyboxFadeTransition`: the loop that moves `i` one step and writes
   * `i / Steps` to the skybox's exposure until `i` leaves [0, Steps]. The
   * writes are returned in order; the `duration / Steps` waits between them
   * are not modelled.
   */
  method SkyboxFadeTransition(kind: string) returns (writes: seq<int>)
    ensures writes == FadeRamp(IsFadeIn(kind))
  {
    var fadeIn := IsFadeIn(kind);
    var i := if fadeIn then 0 else Steps;
    writes := [];
    while if fadeIn then i <= Steps else i >= 0
      invariant fadeIn ==> 0 <= i <= Steps + 1 && |writes| == i
      invariant !fadeIn ==> -1 <= i <= Steps && |writes| == Steps - i
      invariant forall k :: 0 <= k < |writes| ==> writes[k] == if fadeIn then k + 1 else Steps - 1 - k
      decreases if fadeIn then Steps + 1 - i else i + 1
    {
      i := if fadeIn then i + 1 else i - 1;
      writes := writes + [i];
    }
  }

  // ---------------------------------------------------------------------
  // Skybox material
  // ---------------------------------------------------------------------

  /** A texture size: Unity textures are at least one pixel on each side. */
  type Dim = x: int | x > 0 witness 1

  /** A render texture: one made from an image file or the target a video plays into. */
  datatype Surface =
    | ImageTexture(path: string, width: Dim, height: Dim)
    | VideoTexture(url: string, width: Dim, height: Dim)

  /**
   * The panoramic skybox material's parameters that the slideshow sets: the
   * main texture, the `_MAPPING_6_FRAMES_LAYOUT` keyword and the `_Mapping`,
   * `_ImageType` and `_Layout` floats.
   */
  datatype Material = Material(
    mainTexture: Option<Surface>,
    sixFramesLayout: bool,
    mapping: int,
    imageType: int,
    layout: int)

  /**
   * `UpdateSkyboxMainTexture`: installs the texture, then chooses the layout
   * from the texture's reduced aspect ratio: "2:1" latitude-longitude, "1:1"
   * latitude-longitude with layout 2, "6:1" six frames; any other ratio
   * leaves the layout parameters as they were.
   */
  function UpdateSkyboxMainTexture(material: Material, texture: Surface): (r: Material)
    ensures r.mainTexture == Some(texture)
  {
    var withTexture := material.(mainTexture := Some(texture));
    match CalculateAspectRatio(texture.width, texture.height)
    case Some("2:1") => withTexture.(sixFramesLayout := false, mapping := 1, imageType := 0, layout := 0)
    case Some("1:1") => withTexture.(sixFramesLayout := false, mapping := 1, imageType := 0, layout := 2)
    case Some("6:1") => withTexture.(sixFramesLayout := true, mapping := 0)
    case _ => withTexture
  }

  /**
   * The layout chosen for a texture depends only on its proportions: twice
   * as wide as high, square, six times as wide as high, or anything else.
   */
  lemma SkyboxLayoutSelection(material: Material, texture: Surface)
    ensures var r := UpdateSkyboxMainTexture(material, texture);
      && (texture.width == 2 * texture.height ==>
            r == material.(mainTexture := Some(texture), sixFramesLayout := false, mapping := 1, imageType := 0, layout := 0))
      && (texture.width == texture.height ==>
            r == material.(mainTexture := Some(texture), sixFramesLayout := false, mapping := 1, imageType := 0, layout := 2))
      && (texture.width == 6 * texture.height ==>
            r == material.(mainTexture := Some(texture), sixFramesLayout := true, mapping := 0))
      && (texture.width != 2 * texture.height && texture.width != texture.height && texture.width != 6 * texture.height ==>
            r == material.(mainTexture := Some(texture)))
  {
    AspectRatioIsReducedProportion(texture.width, texture.height, 2, 1);
    AspectRatioIsReducedProportion(texture.width, texture.height, 1, 1);
    AspectRatioIsReducedProportion(texture.width, texture.height, 6, 1);
    assert FormatRatio(2, 1) == "2:1" && FormatRatio(1, 1) == "1:1" && FormatRatio(6, 1) == "6:1";
    assert Gcd(2, 1) == 1 && Gcd(1, 1) == 1 && Gcd(6, 1) == 1;
  }
}
